/** The public verification lookup `verifyRecord` (src/app/actions.ts): find
    the student by id (ignoring case), else by wallet address, and return
    only the records marked verified. */
module Actions {
  import opened Common
  import opened MockData

  /** The public view of a user: no wallet address, no role. */
  datatype PublicUser = PublicUser(name: string, studentId: string)

  /** `{ success: true, user, records }` or `{ success: false, error }`. */
  datatype VerifyResponse =
    | Found(user: PublicUser, records: seq<AcademicRecord>)
    | Failed(error: string)

  const NotFoundError: string := "No student found with that ID or wallet address."

  /** `records.filter(r => r.verified)`. */
  function VerifiedOnly(records: seq<AcademicRecord>): (kept: seq<AcademicRecord>)
    ensures forall i :: 0 <= i < |kept| ==> kept[i].verified
    ensures |kept| <= |records|
  {
    if records == [] then []
    else (if records[0].verified then [records[0]] else []) + VerifiedOnly(records[1..])
  }

  /** Every verified record is kept as often as it occurs, and nothing else. */
  lemma {:induction false} VerifiedOnlyCounts(records: seq<AcademicRecord>, x: AcademicRecord)
    ensures multiset(VerifiedOnly(records))[x] == if x.verified then multiset(records)[x] else 0
  {
    if records != [] {
      assert records == [records[0]] + records[1..];
      VerifiedOnlyCounts(records[1..], x);
    }
  }

  /** Filtering commutes with concatenation, so the kept records stay in
      their original order. */
  lemma {:induction false} VerifiedOnlyConcat(a: seq<AcademicRecord>, b: seq<AcademicRecord>)
    ensures VerifiedOnly(a + b) == VerifiedOnly(a) + VerifiedOnly(b)
  {
    if a == [] {
      assert a + b == b;
    } else {
      var head := if a[0].verified then [a[0]] else [];
      assert (a + b)[0] == a[0] && (a + b)[1..] == a[1..] + b;
      VerifiedOnlyConcat(a[1..], b);
      calc {
        VerifiedOnly(a + b);
        head + VerifiedOnly(a[1..] + b);
        head + (VerifiedOnly(a[1..]) + VerifiedOnly(b));
        (head + VerifiedOnly(a[1..])) + VerifiedOnly(b);
      }
    }
  }

  /** A list of verified records passes the filter unchanged; in particular
      filtering twice is filtering once. */
  lemma {:induction false} VerifiedOnlyKeepsVerified(records: seq<AcademicRecord>)
    requires forall i :: 0 <= i < |records| ==> records[i].verified
    ensures VerifiedOnly(records) == records
  {
    if records != [] {
      VerifiedOnlyKeepsVerified(records[1..]);
    }
  }

  /** `findUserById(identifier)`, and only if that finds nobody,
      `findUserByWallet(identifier)`. */
  function Lookup(users: seq<User>, identifier: string): (r: Option<User>)
    ensures FindUserById(users, identifier).Some? ==> r == FindUserById(users, identifier)
    ensures FindUserById(users, identifier).None? ==> r == FindUserByWallet(users, identifier)
    ensures r.None? <==> forall u :: u in users ==>
              Lower(u.studentId) != Lower(identifier) && u.walletAddress != identifier
  {
    match FindUserById(users, identifier)
    case Some(u) => Some(u)
    case None => FindUserByWallet(users, identifier)
  }

  /** `verifyRecord(identifier)`. The `catch` branch is not modelled: nothing
      inside the `try` throws for a string identifier. */
  function VerifyRecord(users: seq<User>, identifier: string): (r: VerifyResponse)
    ensures r.Found? ==> forall i :: 0 <= i < |r.records| ==> r.records[i].verified
    ensures r.Failed? <==> forall u :: u in users ==>
              Lower(u.studentId) != Lower(identifier) && u.walletAddress != identifier
    ensures r.Failed? ==> r.error == NotFoundError
    ensures r.Found? ==> exists u :: u in users && r.user == PublicUser(u.name, u.studentId) &&
                                      r.records == VerifiedOnly(u.records)
  {
    match Lookup(users, identifier)
    case Some(u) => Found(PublicUser(u.name, u.studentId), VerifiedOnly(u.records))
    case None => Failed(NotFoundError)
  }

  /** When some student id matches, the first such user is the answer,
      whatever wallet addresses other users have. */
  lemma {:induction false} IdMatchWins(users: seq<User>, identifier: string, k: nat)
    requires k < |users| && Lower(users[k].studentId) == Lower(identifier)
    ensures exists i :: 0 <= i <= k && Lower(users[i].studentId) == Lower(identifier) &&
              VerifyRecord(users, identifier) == Found(PublicUser(users[i].name, users[i].studentId), VerifiedOnly(users[i].records))
  {
    var r := FindUserById(users, identifier);
    var i :| 0 <= i < |users| && users[i] == r.value &&
             forall j :: 0 <= j < i ==> Lower(users[j].studentId) != Lower(identifier);
    assert i <= k;
  }

  /** With no id match, the first user holding the identifier as wallet
      address is the answer. */
  lemma {:induction false} WalletFallback(users: seq<User>, identifier: string, k: nat)
    requires forall u :: u in users ==> Lower(u.studentId) != Lower(identifier)
    requires k < |users| && users[k].walletAddress == identifier
    ensures exists i :: 0 <= i <= k && users[i].walletAddress == identifier &&
              VerifyRecord(users, identifier) == Found(PublicUser(users[i].name, users[i].studentId), VerifiedOnly(users[i].records))
  {
    var r := FindUserByWallet(users, identifier);
    var i :| 0 <= i < |users| && users[i] == r.value &&
             forall j :: 0 <= j < i ==> users[j].walletAddress != identifier;
    assert i <= k;
  }

  /** In a directory with distinct keys, the user holding the identifier
      as student id (ignoring case), or else as wallet address, is the
      answer. */
  lemma {:induction false} FoundUnique(users: seq<User>, identifier: string, k: nat)
    requires DistinctKeys(users) && k < |users|
    requires Lower(users[k].studentId) == Lower(identifier) ||
             (users[k].walletAddress == identifier &&
              forall u :: u in users ==> Lower(u.studentId) != Lower(identifier))
    ensures VerifyRecord(users, identifier) ==
      Found(PublicUser(users[k].name, users[k].studentId), VerifiedOnly(users[k].records))
  {
    UniqueCandidate(users, users[k], identifier, identifier);
  }

  /** Alice's records that pass the filter are her first two. */
  lemma AliceVerifiedRecords(tx: SeedTxIds)
    ensures VerifiedOnly(Users(tx)[1].records) == Users(tx)[1].records[..2]
  {
    var recs := Users(tx)[1].records;
    assert recs == recs[..2] + [recs[2]];
    VerifiedOnlyConcat(recs[..2], [recs[2]]);
    VerifiedOnlyKeepsVerified(recs[..2]);
  }

  /** Alice is found by her id typed in any case; her unverified third
      record is withheld. */
  lemma AliceById(tx: SeedTxIds, identifier: string)
    requires Lower(identifier) == Lower("STU-2024-001")
    ensures VerifyRecord(Users(tx), identifier) ==
      Found(PublicUser("Alice Johnson", "STU-2024-001"), Users(tx)[1].records[..2])
  {
    var u := Users(tx);
    assert u[1].name == "Alice Johnson" && u[1].studentId == "STU-2024-001";
    DirectoryKeysDistinct(tx);
    FoundUnique(u, identifier, 1);
    AliceVerifiedRecords(tx);
  }

  /** The administrator, found by wallet address, has no verified records:
      the answer is success with an empty list, not an error. */
  lemma AdminByWallet(tx: SeedTxIds, identifier: string)
    requires identifier == Users(tx)[0].walletAddress
    ensures VerifyRecord(Users(tx), identifier) ==
      Found(PublicUser("School Administrator", "ADMIN-001"), [])
  {
    var u := Users(tx);
    assert u[0].studentId == "ADMIN-001" && u[0].name == "School Administrator" && u[0].records == [];
    assert |u[0].studentId| == 9 && |u[1].studentId| == 12 && |u[2].studentId| == 12 && |identifier| == 41;
    DirectoryKeysDistinct(tx);
    FoundByWalletAlone(u, identifier, 0);
  }

  /** A user found by wallet address when the identifier is longer than
      every student id, so that no id can match it. */
  lemma FoundByWalletAlone(users: seq<User>, identifier: string, k: nat)
    requires DistinctKeys(users) && k < |users| && users[k].walletAddress == identifier
    requires forall i :: 0 <= i < |users| ==> |users[i].studentId| < |identifier|
    ensures VerifyRecord(users, identifier) ==
      Found(PublicUser(users[k].name, users[k].studentId), VerifiedOnly(users[k].records))
  {
    forall u | u in users
      ensures Lower(u.studentId) != Lower(identifier)
    {
      var i :| 0 <= i < |users| && users[i] == u;
    }
    FoundUnique(users, identifier, k);
  }
}
