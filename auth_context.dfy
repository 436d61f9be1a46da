/** The auth provider (src/contexts/auth-context.tsx): two state cells,
    `userData` and `user`, driven by the shared wallet session. */
module AuthContext {
  import opened Common
  import opened MockData
  import opened StacksManager

  class AuthProvider {
    /** The directory `users` the provider searches. */
    const users: seq<User>
    const wallet: StacksWalletManager
    var userData: Option<UserData>
    var user: Option<User>

    /** A user is shown only with session data, and it is the directory
        entry holding the session's testnet address. */
    ghost predicate Valid()
      reads this
    {
      && (userData.None? ==> user.None?)
      && (userData.Some? ==> user == FindUserByWallet(users, userData.value.profile.stxAddress.testnet))
    }

    /** Both cells start as `null`. */
    constructor(users: seq<User>, wallet: StacksWalletManager)
      ensures this.users == users && this.wallet == wallet
      ensures userData == None && user == None && Valid()
    {
      this.users := users;
      this.wallet := wallet;
      userData := None;
      user := None;
    }

    /** `handleSignIn`: copy the session into `userData` and look its
        testnet address up in the directory, whatever the manager's network;
        signed out, clear both cells. */
    method HandleSignIn()
      modifies this
      ensures userData == wallet.userSession.stored
      ensures wallet.userSession.IsUserSignedIn() ==>
                user == FindUserByWallet(users, wallet.userSession.LoadUserData().profile.stxAddress.testnet)
      ensures !wallet.userSession.IsUserSignedIn() ==> user == None
      ensures Valid()
      ensures wallet.network == Testnet && user.Some? ==> Some(user.value.walletAddress) == wallet.GetUserAddress()
    {
      if wallet.userSession.IsUserSignedIn() {
        var sessionData := wallet.userSession.LoadUserData();
        userData := Some(sessionData);
        var walletAddress := sessionData.profile.stxAddress.testnet;
        user := FindUserByWallet(users, walletAddress);
      } else {
        userData := None;
        user := None;
      }
    }

    /** The mount effect: a pending redirect sign-in is completed first,
        then `handleSignIn` runs; without one, `handleSignIn` runs at once. */
    method Mount()
      modifies this, wallet.userSession
      ensures old(wallet.userSession.IsSignInPending()) ==>
                wallet.userSession.stored == old(wallet.userSession.pendingResponse) &&
                !wallet.userSession.IsSignInPending()
      ensures !old(wallet.userSession.IsSignInPending()) ==>
                wallet.userSession.stored == old(wallet.userSession.stored) &&
                wallet.userSession.pendingResponse == old(wallet.userSession.pendingResponse)
      ensures userData == wallet.userSession.stored
      ensures Valid()
    {
      if wallet.userSession.IsSignInPending() {
        wallet.userSession.HandlePendingSignIn();
      }
      HandleSignIn();
    }

    /** `logout`: disconnect the wallet, then clear both cells, from any
        state; a second logout changes nothing. */
    method Logout()
      modifies this, wallet.userSession
      ensures user == None && userData == None && Valid()
      ensures !wallet.userSession.IsUserSignedIn()
      ensures wallet.userSession.pendingResponse == old(wallet.userSession.pendingResponse)
      ensures !old(wallet.userSession.IsUserSignedIn()) ==> wallet.userSession.stored == old(wallet.userSession.stored)
    {
      wallet.DisconnectWallet();
      user := None;
      userData := None;
    }
  }
}
