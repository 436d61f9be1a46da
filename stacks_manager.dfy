/** The wallet manager `StacksWalletManager` (src/lib/stacks-manager.ts):
    session queries, the `add-record` contract call and the `get-records`
    read-only call. The wallet library's session object is modelled by its
    observable state; library and network calls are outcome parameters,
    and the methods return the calls they reach so that what is sent, and
    whether anything is sent at all, can be stated. */
module StacksManager {
  import opened Common

  datatype StxAddress = StxAddress(mainnet: string, testnet: string)
  datatype Profile = Profile(stxAddress: StxAddress)

  /** What `loadUserData()` yields for a signed-in wallet. */
  datatype UserData = UserData(profile: Profile, appPrivateKey: string)

  /** The wallet library's `UserSession`, one object shared by the manager
      and the auth provider. It holds the stored sign-in data, if any, and
      the authentication response of a wallet redirect that has not been
      handled yet, if any; the two are independent. */
  class UserSession {
    var stored: Option<UserData>
    var pendingResponse: Option<UserData>

    constructor(stored: Option<UserData>, pendingResponse: Option<UserData>)
      ensures this.stored == stored && this.pendingResponse == pendingResponse
    {
      this.stored := stored;
      this.pendingResponse := pendingResponse;
    }

    predicate IsUserSignedIn()
      reads this
    {
      stored.Some?
    }

    predicate IsSignInPending()
      reads this
    {
      pendingResponse.Some?
    }

    /** `loadUserData()`: the stored sign-in data. */
    function LoadUserData(): (data: UserData)
      reads this
      requires IsUserSignedIn()
      ensures stored == Some(data)
    {
      stored.value
    }

    method SignUserOut()
      modifies this
      ensures stored == None && pendingResponse == old(pendingResponse)
    {
      stored := None;
    }

    /** Completes a redirect sign-in: the pending response becomes the
        stored session. */
    method HandlePendingSignIn()
      requires IsSignInPending()
      modifies this
      ensures stored == old(pendingResponse) && pendingResponse == None
    {
      stored := pendingResponse;
      pendingResponse := None;
    }
  }

  datatype Network = Mainnet | Testnet

  /** The address a profile has on `network`: the mainnet address on
      mainnet, the testnet address on any other network. */
  function AddressOn(network: Network, data: UserData): (address: string)
    ensures network == Mainnet ==> address == data.profile.stxAddress.mainnet
    ensures network != Mainnet ==> address == data.profile.stxAddress.testnet
  {
    if network == Mainnet then data.profile.stxAddress.mainnet else data.profile.stxAddress.testnet
  }

  /** Typed Clarity arguments of a contract call. */
  datatype ClarityValue = StandardPrincipal(address: string) | StringAscii(text: string) | UInt(n: int)

  datatype AnchorMode = AnchorAny
  datatype PostConditionMode = PostConditionAllow

  /** The `txOptions` handed to `makeContractCall`. */
  datatype ContractCallOptions = ContractCallOptions(
    contractAddress: string,
    contractName: string,
    functionName: string,
    functionArgs: seq<ClarityValue>,
    senderKey: string,
    validateWithAbi: bool,
    network: Network,
    anchorMode: AnchorMode,
    postConditionMode: PostConditionMode)

  /** A library call that `addRecord` reaches: building and signing the
      transaction, then broadcasting the signed transaction. */
  datatype LibraryCall =
    | MakeContractCall(options: ContractCallOptions)
    | BroadcastTransaction(transaction: string, network: Network)

  /** `{ txId, success: true }` or `{ success: false, error }`. */
  datatype AddRecordResult = Submitted(txId: string) | NotSubmitted(error: string)

  /** The body of the `call-read` request: the contract and function in the
      URL, the sender and the (hex-encoded) arguments in the JSON body. */
  datatype ReadOnlyCall = ReadOnlyCall(
    contractAddress: string,
    contractName: string,
    functionName: string,
    sender: string,
    arguments: seq<ClarityValue>)

  /** What `fetch` does: throw, or answer with a status (`ok`) and a body
      whose JSON parse (`response.json()`) yields a value or throws. */
  datatype FetchResult =
    | FetchThrew(message: string)
    | HttpResponse(ok: bool, json: Outcome<string>)

  const ContractAddress: string := "ST1PQHQKV0RJXZFY1DGX8MNSNYVE3VGZJSRTPGZGM"
  const ContractName: string := "edu-chain"
  const AddRecordFunction: string := "add-record"
  const GetRecordsFunction: string := "get-records"
  const NotSignedInError: string := "User not signed in"

  /** The five `add-record` arguments, in order. */
  function AddRecordArgs(studentAddress: string, course: string, grade: string, year: int, institution: string): seq<ClarityValue>
  {
    [StandardPrincipal(studentAddress), StringAscii(course), StringAscii(grade), UInt(year), StringAscii(institution)]
  }

  /** Reads an argument list back as `add-record`'s five fields, if it has
      that shape. */
  function DecodeAddRecordArgs(args: seq<ClarityValue>): Option<(string, string, string, int, string)>
  {
    if |args| == 5 && args[0].StandardPrincipal? && args[1].StringAscii? && args[2].StringAscii?
       && args[3].UInt? && args[4].StringAscii?
    then Some((args[0].address, args[1].text, args[2].text, args[3].n, args[4].text))
    else None
  }

  /** The argument list carries exactly the five submitted values, in order. */
  lemma AddRecordArgsRoundTrip(studentAddress: string, course: string, grade: string, year: int, institution: string)
    ensures DecodeAddRecordArgs(AddRecordArgs(studentAddress, course, grade, year, institution))
            == Some((studentAddress, course, grade, year, institution))
  {
  }

  class StacksWalletManager {
    const userSession: UserSession
    const network: Network
    const contractAddress: string
    const contractName: string

    /** Takes the module-level session object; the network is the testnet
        instance and the contract is the placeholder one. */
    constructor(session: UserSession)
      ensures userSession == session && network == Testnet
      ensures contractAddress == ContractAddress && contractName == ContractName
    {
      userSession := session;
      network := Testnet;
      contractAddress := ContractAddress;
      contractName := ContractName;
    }

    /** Signs out only a signed-in session; otherwise nothing changes. */
    method DisconnectWallet()
      modifies userSession
      ensures !userSession.IsUserSignedIn()
      ensures userSession.pendingResponse == old(userSession.pendingResponse)
      ensures !old(userSession.IsUserSignedIn()) ==> userSession.stored == old(userSession.stored)
    {
      if userSession.IsUserSignedIn() {
        userSession.SignUserOut();
      }
    }

    predicate IsUserSignedIn()
      reads userSession
    {
      userSession.IsUserSignedIn()
    }

    /** `getUserData()`: the session's data, or `null` when signed out. */
    function GetUserData(): (r: Option<UserData>)
      reads userSession
      ensures r.None? <==> !userSession.IsUserSignedIn()
      ensures r.Some? ==> r == userSession.stored
    {
      if IsUserSignedIn() then Some(userSession.LoadUserData()) else None
    }

    /** `getUserAddress()`: `null` when signed out, else the profile's
        address on the manager's network. */
    function GetUserAddress(): (r: Option<string>)
      reads userSession
      ensures r.None? <==> !userSession.IsUserSignedIn()
      ensures r.Some? ==> r.value == AddressOn(network, userSession.stored.value)
    {
      match GetUserData()
      case None => None
      case Some(data) => Some(AddressOn(network, data))
    }

    /** The `txOptions` of `addRecord`. */
    function AddRecordOptions(studentAddress: string, course: string, grade: string, year: int,
                              institution: string, senderKey: string): (options: ContractCallOptions)
      ensures options.contractAddress == contractAddress && options.contractName == contractName
      ensures options.functionName == AddRecordFunction && options.network == network
      ensures DecodeAddRecordArgs(options.functionArgs) == Some((studentAddress, course, grade, year, institution))
      ensures options.senderKey == senderKey
    {
      ContractCallOptions(contractAddress, contractName, AddRecordFunction,
        AddRecordArgs(studentAddress, course, grade, year, institution),
        senderKey, true, network, AnchorAny, PostConditionAllow)
    }

    /** `addRecord`: signed out, it fails with "User not signed in" and calls
        nothing; signed in, it builds and signs the call, then broadcasts
        the signed transaction. A throw at either step becomes a failure
        carrying the message; nothing is re-thrown. */
    method AddRecord(studentAddress: string, course: string, grade: string, year: int, institution: string,
                     makeContractCall: Outcome<string>, broadcastTransaction: Outcome<string>)
      returns (r: AddRecordResult, calls: seq<LibraryCall>)
      ensures !userSession.IsUserSignedIn() ==> r == NotSubmitted(NotSignedInError) && calls == []
      ensures userSession.IsUserSignedIn() ==>
        |calls| >= 1 &&
        calls[0] == MakeContractCall(AddRecordOptions(studentAddress, course, grade, year, institution,
                                                      userSession.LoadUserData().appPrivateKey))
      ensures userSession.IsUserSignedIn() && makeContractCall.Threw? ==>
        |calls| == 1 && r == NotSubmitted(makeContractCall.message)
      ensures userSession.IsUserSignedIn() && makeContractCall.Returned? ==>
        calls[1..] == [BroadcastTransaction(makeContractCall.value, network)] &&
        r == match broadcastTransaction
             case Returned(txid) => Submitted(txid)
             case Threw(message) => NotSubmitted(message)
    {
      var userData := GetUserData();
      if userData.None? {
        return NotSubmitted(NotSignedInError), [];
      }
      var txOptions := AddRecordOptions(studentAddress, course, grade, year, institution,
                                        userData.value.appPrivateKey);
      calls := [MakeContractCall(txOptions)];
      if makeContractCall.Threw? {
        return NotSubmitted(makeContractCall.message), calls;
      }
      var transaction := makeContractCall.value;
      calls := calls + [BroadcastTransaction(transaction, network)];
      match broadcastTransaction
      case Threw(message) =>
        r := NotSubmitted(message);
      case Returned(txid) =>
        r := Submitted(txid);
    }

    /** The sender of read-only calls: `getUserAddress() || contractAddress`,
        so the contract's own address when nobody is signed in (or the
        address is the empty string). */
    function ReadSender(): (sender: string)
      reads userSession
      ensures userSession.IsUserSignedIn() && AddressOn(network, userSession.stored.value) != "" ==>
                sender == AddressOn(network, userSession.stored.value)
      ensures userSession.IsUserSignedIn() && AddressOn(network, userSession.stored.value) == "" ==>
                sender == contractAddress
      ensures !userSession.IsUserSignedIn() ==> sender == contractAddress
    {
      match GetUserAddress()
      case Some(address) => if address != "" then address else contractAddress
      case None => contractAddress
    }

    /** `getRecords(userAddress)`: the `get-records` read-only call, and its
        parsed JSON body, or `null` when the call throws, the status is not
        ok, or the body does not parse. */
    method GetRecords(userAddress: string, fetch: FetchResult) returns (data: Option<string>, request: ReadOnlyCall)
      ensures request == ReadOnlyCall(contractAddress, contractName, GetRecordsFunction, ReadSender(),
                                      [StandardPrincipal(userAddress)])
      ensures data.Some? <==> fetch.HttpResponse? && fetch.ok && fetch.json.Returned?
      ensures data.Some? ==> data.value == fetch.json.value
    {
      var sender := ReadSender();
      request := ReadOnlyCall(contractAddress, contractName, GetRecordsFunction, sender,
                              [StandardPrincipal(userAddress)]);
      match fetch
      case FetchThrew(_) =>
        data := None;
      case HttpResponse(ok, json) =>
        if !ok {
          data := None;
        } else if json.Threw? {
          data := None;
        } else {
          data := Some(json.value);
        }
    }
  }
}
