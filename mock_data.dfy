/** The record and user types, the fixed user directory and its two finders
    (src/lib/mock-data.ts). The finders model `Array.prototype.find`: the
    first element, in list order, that satisfies the predicate. */
module MockData {
  import opened Common

  /** `'student' | 'admin'`: no other role can be written down. */
  datatype Role = Student | Admin

  datatype AcademicRecord = AcademicRecord(
    id: string,
    course: string,
    grade: string,
    year: int,
    institution: string,
    verified: bool,
    transactionId: string)

  datatype User = User(
    studentId: string,
    name: string,
    walletAddress: string,
    role: Role,
    records: seq<AcademicRecord>)

  const AdminWallet: string := "SP2J6B0D5R0D2Q5BFA05NK8338G48YV319VFEF34B"
  const StudentWallet1: string := "ST2J6B0D5R0D2Q5BFA05NK8338G48YV319VFEFABC"
  const StudentWallet2: string := "ST3J6B0D5R0D2Q5BFA05NK8338G48YV319VFEFXYZ"

  /** The transaction ids of the five seeded records, drawn at random when
      the module loads; the model takes them as given. */
  datatype SeedTxIds = SeedTxIds(rec1: string, rec2: string, rec3: string, rec4: string, rec5: string)

  /** The fixed directory `users`: one administrator and two students. */
  function Users(tx: SeedTxIds): (users: seq<User>)
    ensures |users| == 3
  {
    [ User("ADMIN-001", "School Administrator", AdminWallet, Admin, []),
      User("STU-2024-001", "Alice Johnson", StudentWallet1, Student,
        [ AcademicRecord("REC-001", "Blockchain Fundamentals", "A+", 2023, "NextGen University", true, tx.rec1),
          AcademicRecord("REC-002", "Clarity Smart Contracts", "A", 2023, "NextGen University", true, tx.rec2),
          AcademicRecord("REC-003", "Decentralized Applications", "B+", 2024, "NextGen University", false, tx.rec3) ]),
      User("STU-2024-002", "Bob Williams", StudentWallet2, Student,
        [ AcademicRecord("REC-004", "Introduction to Cryptography", "A", 2022, "Tech Institute", true, tx.rec4),
          AcademicRecord("REC-005", "Data Structures", "B", 2023, "Tech Institute", true, tx.rec5) ]) ]
  }

  /** Index `i` holds the first element of `xs` satisfying `p`. */
  ghost predicate FirstMatchAt<T>(xs: seq<T>, p: T -> bool, i: int) {
    0 <= i < |xs| && p(xs[i]) && forall j :: 0 <= j < i ==> !p(xs[j])
  }

  /** The position `Array.prototype.find` stops at, if any. */
  function FindIndex<T>(xs: seq<T>, p: T -> bool): (r: Option<nat>)
    ensures r.Some? ==> FirstMatchAt(xs, p, r.value)
    ensures r.None? <==> forall j :: 0 <= j < |xs| ==> !p(xs[j])
  {
    if xs == [] then None
    else if p(xs[0]) then Some(0)
    else match FindIndex(xs[1..], p)
      case None => None
      case Some(i) => Some(i + 1)
  }

  /** `xs.find(p)`: the first element satisfying `p`, or `undefined`. */
  function Find<T>(xs: seq<T>, p: T -> bool): (r: Option<T>)
    ensures r.None? <==> forall j :: 0 <= j < |xs| ==> !p(xs[j])
    ensures r.Some? ==> exists i :: FirstMatchAt(xs, p, i) && xs[i] == r.value
  {
    match FindIndex(xs, p)
    case None => None
    case Some(i) => Some(xs[i])
  }

  /** `findUserByWallet`: exact, case-sensitive comparison of the address. */
  function FindUserByWallet(users: seq<User>, walletAddress: string): (r: Option<User>)
    ensures r.Some? ==> r.value in users && r.value.walletAddress == walletAddress
    ensures r.None? <==> forall u :: u in users ==> u.walletAddress != walletAddress
    ensures r.Some? ==> exists i :: 0 <= i < |users| && users[i] == r.value &&
                          forall j :: 0 <= j < i ==> users[j].walletAddress != walletAddress
  {
    Find(users, (u: User) => u.walletAddress == walletAddress)
  }

  /** `findUserById`: both sides lower-cased before comparing. */
  function FindUserById(users: seq<User>, studentId: string): (r: Option<User>)
    ensures r.Some? ==> r.value in users && Lower(r.value.studentId) == Lower(studentId)
    ensures r.None? <==> forall u :: u in users ==> Lower(u.studentId) != Lower(studentId)
    ensures r.Some? ==> exists i :: 0 <= i < |users| && users[i] == r.value &&
                          forall j :: 0 <= j < i ==> Lower(users[j].studentId) != Lower(studentId)
  {
    var query := Lower(studentId);
    Find(users, (u: User) => Lower(u.studentId) == query)
  }

  /** Queries that agree once lower-cased (any case variant of an id) find
      the same user. */
  lemma FindUserByIdIgnoresCase(users: seq<User>, a: string, b: string)
    requires Lower(a) == Lower(b)
    ensures FindUserById(users, a) == FindUserById(users, b)
  {
  }

  /** Student ids differ even ignoring case, and wallet addresses differ. */
  ghost predicate DistinctKeys(users: seq<User>) {
    forall i, j :: 0 <= i < j < |users| ==>
      Lower(users[i].studentId) != Lower(users[j].studentId) &&
      users[i].walletAddress != users[j].walletAddress
  }

  /** Strings whose characters at `k` differ after lower-casing stay
      different after lower-casing. */
  lemma LowerDiffersAt(a: string, b: string, k: nat)
    requires k < |a| && k < |b| && LowerChar(a[k]) != LowerChar(b[k])
    ensures Lower(a) != Lower(b)
  {
    assert Lower(a)[k] != Lower(b)[k];
  }

  lemma DistinctKeysOfThree(u: seq<User>)
    requires |u| == 3
    requires Lower(u[0].studentId) != Lower(u[1].studentId) && u[0].walletAddress != u[1].walletAddress
    requires Lower(u[0].studentId) != Lower(u[2].studentId) && u[0].walletAddress != u[2].walletAddress
    requires Lower(u[1].studentId) != Lower(u[2].studentId) && u[1].walletAddress != u[2].walletAddress
    ensures DistinctKeys(u)
  {
  }

  lemma {:induction false} DirectoryKeysDistinct(tx: SeedTxIds)
    ensures DistinctKeys(Users(tx))
  {
    var u := Users(tx);
    LowerDiffersAt(u[0].studentId, u[1].studentId, 0);
    LowerDiffersAt(u[0].studentId, u[2].studentId, 0);
    LowerDiffersAt(u[1].studentId, u[2].studentId, 11);
    DistinctKeysOfThree(u);
  }

  /** With distinct keys each lookup has at most one candidate, so a finder
      returns a user exactly when that user carries the key. */
  lemma {:induction false} UniqueCandidate(users: seq<User>, u: User, walletAddress: string, studentId: string)
    requires DistinctKeys(users)
    requires u in users
    ensures FindUserByWallet(users, walletAddress) == Some(u) <==> u.walletAddress == walletAddress
    ensures FindUserById(users, studentId) == Some(u) <==> Lower(u.studentId) == Lower(studentId)
  {
    var k :| 0 <= k < |users| && users[k] == u;
    UniqueWalletCandidate(users, k, walletAddress);
    UniqueIdCandidate(users, k, studentId);
  }

  lemma UniqueWalletCandidate(users: seq<User>, k: nat, walletAddress: string)
    requires DistinctKeys(users) && k < |users|
    ensures users[k].walletAddress == walletAddress ==> FindUserByWallet(users, walletAddress) == Some(users[k])
  {
    if users[k].walletAddress == walletAddress {
      var w := FindUserByWallet(users, walletAddress);
      var i :| 0 <= i < |users| && users[i] == w.value &&
               forall j :: 0 <= j < i ==> users[j].walletAddress != walletAddress;
      assert !(i < k) && !(k < i);
    }
  }

  lemma UniqueIdCandidate(users: seq<User>, k: nat, studentId: string)
    requires DistinctKeys(users) && k < |users|
    ensures Lower(users[k].studentId) == Lower(studentId) ==> FindUserById(users, studentId) == Some(users[k])
  {
    if Lower(users[k].studentId) == Lower(studentId) {
      var s := FindUserById(users, studentId);
      var i :| 0 <= i < |users| && users[i] == s.value &&
               forall j :: 0 <= j < i ==> Lower(users[j].studentId) != Lower(studentId);
      assert !(i < k) && !(k < i);
    }
  }

  /** The one administrator is the first entry and has no records; every
      other entry is a student. */
  lemma DirectoryRoles(tx: SeedTxIds)
    ensures Users(tx)[0].role == Admin && Users(tx)[0].records == []
    ensures forall i :: 1 <= i < |Users(tx)| ==> Users(tx)[i].role == Student
  {
  }
}
