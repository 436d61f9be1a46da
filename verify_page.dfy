/** The public verification page (src/app/verify/page.tsx): the identifier
    schema and the three state cells `isLoading`, `error` and `result`
    that `onSubmit` drives around its call to `verifyRecord`. */
module VerifyPage {
  import opened Common
  import opened MockData
  import opened Actions

  const MinIdentifierLength: nat := 10
  const DefaultError: string := "Verification failed."

  /** `FormSchema`: an identifier of at least ten characters. */
  predicate IdentifierAccepted(identifier: string) {
    |identifier| >= MinIdentifierLength
  }

  /** The administrator's nine-character student id never passes the
      schema, so the page can reach that account only by wallet address. */
  lemma AdminIdRejected(tx: SeedTxIds)
    ensures !IdentifierAccepted(Users(tx)[0].studentId)
    ensures IdentifierAccepted(Users(tx)[0].walletAddress)
  {
  }

  /** What the page shows for a found student. */
  datatype VerificationResult = VerificationResult(user: PublicUser, records: seq<AcademicRecord>)

  class VerifyPageState {
    var result: Option<VerificationResult>
    var error: Option<string>
    var isLoading: bool

    /** At most one of `result` and `error` is shown. */
    ghost predicate Valid()
      reads this
    {
      !(result.Some? && error.Some?)
    }

    constructor()
      ensures result == None && error == None && !isLoading && Valid()
    {
      result := None;
      error := None;
      isLoading := false;
    }

    /** The part of `onSubmit` before the `await`: loading, nothing shown. */
    method BeginSubmit()
      modifies this
      ensures isLoading && error == None && result == None && Valid()
    {
      isLoading := true;
      error := None;
      result := None;
    }

    /** The part of `onSubmit` after the `await`: show the records, or the
        response's error (the default message when it is empty). */
    method FinishSubmit(response: VerifyResponse)
      modifies this
      ensures !isLoading
      ensures response.Found? ==>
                result == Some(VerificationResult(response.user, response.records)) && error == old(error)
      ensures response.Failed? ==>
                error == Some(if response.error != "" then response.error else DefaultError) && result == old(result)
    {
      match response {
        case Found(user, records) =>
          result := Some(VerificationResult(user, records));
        case Failed(message) =>
          error := Some(if message != "" then message else DefaultError);
      }
      isLoading := false;
    }

    /** `onSubmit(identifier)`: every shown record is verified, and a
        failed lookup shows the not-found message and no result. */
    method OnSubmit(users: seq<User>, identifier: string)
      modifies this
      ensures !isLoading && Valid()
      ensures result.Some? <==> VerifyRecord(users, identifier).Found?
      ensures result.Some? ==>
                result.value == VerificationResult(VerifyRecord(users, identifier).user, VerifyRecord(users, identifier).records) &&
                error == None
      ensures result.Some? ==> forall i :: 0 <= i < |result.value.records| ==> result.value.records[i].verified
      ensures result.None? ==> error == Some(NotFoundError)
    {
      BeginSubmit();
      var response := VerifyRecord(users, identifier);
      FinishSubmit(response);
    }

    /** The form's submit: a rejected identifier never reaches `onSubmit`
        and leaves the page as it was. */
    method HandleSubmit(users: seq<User>, identifier: string) returns (submitted: bool)
      modifies this
      ensures submitted == IdentifierAccepted(identifier)
      ensures submitted ==> !isLoading && Valid() && (result.Some? <==> VerifyRecord(users, identifier).Found?)
      ensures submitted && result.Some? ==>
                result.value == VerificationResult(VerifyRecord(users, identifier).user, VerifyRecord(users, identifier).records) &&
                error == None
      ensures submitted && result.Some? ==> forall i :: 0 <= i < |result.value.records| ==> result.value.records[i].verified
      ensures submitted && result.None? ==> error == Some(NotFoundError)
      ensures !submitted ==> result == old(result) && error == old(error) && isLoading == old(isLoading)
    {
      submitted := IdentifierAccepted(identifier);
      if submitted {
        OnSubmit(users, identifier);
      }
    }
  }
}
