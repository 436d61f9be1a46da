/** The dashboard (src/components/dashboard.tsx): the add-record form's
    schema, the new record it produces and the `records` state it is
    prepended to. The clock year and `Math.random()` are parameters. */
module Dashboard {
  import opened Common
  import opened MockData

  /** The form values, `year` already coerced to a number. */
  datatype RecordForm = RecordForm(course: string, grade: string, year: int, institution: string)

  /** The checks of `recordFormSchema`, one per failing rule. */
  datatype FormIssue = CourseTooShort | GradeRequired | YearTooEarly | YearTooLate | InstitutionTooShort

  /** The rules of the schema, in field order. */
  const AllIssues: seq<FormIssue> := [CourseTooShort, GradeRequired, YearTooEarly, YearTooLate, InstitutionTooShort]

  /** `form` breaks the rule behind `issue`. */
  predicate Breaks(form: RecordForm, currentYear: int, issue: FormIssue) {
    match issue
    case CourseTooShort => |form.course| < 2
    case GradeRequired => |form.grade| < 1
    case YearTooEarly => form.year < 1900
    case YearTooLate => form.year > currentYear + 1
    case InstitutionTooShort => |form.institution| < 3
  }

  /** The issues among `rules` that `form` breaks, in order. */
  function BrokenRules(form: RecordForm, currentYear: int, rules: seq<FormIssue>): (issues: seq<FormIssue>)
    ensures forall x :: x in issues <==> x in rules && Breaks(form, currentYear, x)
  {
    if rules == [] then []
    else (if Breaks(form, currentYear, rules[0]) then [rules[0]] else [])
         + BrokenRules(form, currentYear, rules[1..])
  }

  /** Every rule of the schema that `form` breaks, in field order. */
  function RecordFormIssues(form: RecordForm, currentYear: int): (issues: seq<FormIssue>)
    ensures forall x :: x in issues <==> Breaks(form, currentYear, x)
  {
    BrokenRules(form, currentYear, AllIssues)
  }

  /** The schema parses the form without issues. */
  predicate RecordFormAccepts(form: RecordForm, currentYear: int) {
    RecordFormIssues(form, currentYear) == []
  }

  /** Each rule is reported exactly when the form breaks it. */
  lemma RecordFormIssuesExactly(form: RecordForm, currentYear: int)
    ensures CourseTooShort in RecordFormIssues(form, currentYear) <==> |form.course| < 2
    ensures GradeRequired in RecordFormIssues(form, currentYear) <==> |form.grade| < 1
    ensures YearTooEarly in RecordFormIssues(form, currentYear) <==> form.year < 1900
    ensures YearTooLate in RecordFormIssues(form, currentYear) <==> form.year > currentYear + 1
    ensures InstitutionTooShort in RecordFormIssues(form, currentYear) <==> |form.institution| < 3
  {
  }

  /** The form is accepted exactly when course has at least 2 characters,
      grade at least 1, institution at least 3, and the year lies in
      1900..currentYear + 1. */
  lemma {:induction false} RecordFormAcceptsExactly(form: RecordForm, currentYear: int)
    ensures RecordFormAccepts(form, currentYear) <==>
      |form.course| >= 2 && |form.grade| >= 1 && |form.institution| >= 3 &&
      1900 <= form.year <= currentYear + 1
  {
    var issues := RecordFormIssues(form, currentYear);
    RecordFormIssuesExactly(form, currentYear);
    if issues != [] {
      assert issues[0] in issues;
    }
  }

  /** 1900 and next year are the extreme accepted years. */
  lemma YearBoundaries(course: string, grade: string, institution: string, currentYear: int)
    requires |course| >= 2 && |grade| >= 1 && |institution| >= 3 && currentYear >= 1899
    ensures RecordFormAccepts(RecordForm(course, grade, 1900, institution), currentYear)
    ensures RecordFormAccepts(RecordForm(course, grade, currentYear + 1, institution), currentYear)
    ensures !RecordFormAccepts(RecordForm(course, grade, 1899, institution), currentYear)
    ensures !RecordFormAccepts(RecordForm(course, grade, currentYear + 2, institution), currentYear)
  {
    RecordFormAcceptsExactly(RecordForm(course, grade, 1900, institution), currentYear);
    RecordFormAcceptsExactly(RecordForm(course, grade, currentYear + 1, institution), currentYear);
    RecordFormAcceptsExactly(RecordForm(course, grade, 1899, institution), currentYear);
    RecordFormAcceptsExactly(RecordForm(course, grade, currentYear + 2, institution), currentYear);
  }

  const PendingTransaction: string := "Pending..."
  const RecordIdPrefix: string := "REC-"

  /** `Math.floor(random * 1000)` for `random` in [0, 1). */
  function ScaledRandom(random: real): (n: nat)
    requires 0.0 <= random < 1.0
    ensures n < 1000
    ensures n as real <= random * 1000.0 < n as real + 1.0
  {
    (random * 1000.0).Floor
  }

  /** `REC-${n}`. */
  function RecordId(n: nat): string {
    RecordIdPrefix + Decimal(n)
  }

  /** The number of an id of the form `REC-<digits>`. */
  function ParseRecordId(id: string): Option<nat> {
    if |id| > 4 && id[..4] == RecordIdPrefix && forall i :: 4 <= i < |id| ==> IsDigit(id[i])
    then Some(DigitsValue(id[4..]))
    else None
  }

  /** The id names its number: reading it back gives the number. Ids are
      therefore equal exactly when the numbers are, and nothing else makes
      them unique. */
  lemma RecordIdRoundTrip(n: nat)
    ensures ParseRecordId(RecordId(n)) == Some(n)
  {
    var id := RecordId(n);
    assert id[4..] == Decimal(n);
    DecimalRoundTrip(n);
  }

  /** Ids are equal exactly when the drawn numbers are. */
  lemma RecordIdInjective(m: nat, n: nat)
    ensures RecordId(m) == RecordId(n) <==> m == n
  {
    if RecordId(m) == RecordId(n) {
      assert Decimal(m) == RecordId(m)[4..] == RecordId(n)[4..] == Decimal(n);
      DecimalInjective(m, n);
    }
  }

  /** Two draws that scale to the same number give the same id. */
  lemma RecordIdsCollide()
    ensures RecordId(ScaledRandom(0.5)) == RecordId(ScaledRandom(0.5004))
  {
    assert ScaledRandom(0.5) == 500 == ScaledRandom(0.5004);
  }

  /** The record `handleAddRecord` builds: a random `REC-` id, the form's
      fields unchanged, not verified, transaction pending. */
  function NewRecord(form: RecordForm, random: real): (r: AcademicRecord)
    requires 0.0 <= random < 1.0
    ensures !r.verified && r.transactionId == PendingTransaction
    ensures r.course == form.course && r.grade == form.grade
    ensures r.year == form.year && r.institution == form.institution
    ensures exists n :: 0 <= n < 1000 && ParseRecordId(r.id) == Some(n)
  {
    var n := ScaledRandom(random);
    RecordIdRoundTrip(n);
    AcademicRecord(RecordId(n), form.course, form.grade, form.year, form.institution, false, PendingTransaction)
  }

  /** The `records` state of the dashboard. */
  class DashboardState {
    var records: seq<AcademicRecord>

    /** `useState(user?.records || [])`. */
    constructor(user: Option<User>)
      ensures records == if user.Some? then user.value.records else []
    {
      records := if user.Some? then user.value.records else [];
    }

    /** `handleAddRecord`: the new record goes first, the previous ones
        follow unchanged and in order. */
    method HandleAddRecord(form: RecordForm, random: real)
      requires 0.0 <= random < 1.0
      modifies this
      ensures records == [NewRecord(form, random)] + old(records)
      ensures |records| == |old(records)| + 1 && records[1..] == old(records)
    {
      var newRecord := NewRecord(form, random);
      records := [newRecord] + records;
    }

    /** Submitting the add-record form: only a form the schema accepts
        reaches `handleAddRecord`. */
    method SubmitRecordForm(form: RecordForm, currentYear: int, random: real) returns (accepted: bool)
      requires 0.0 <= random < 1.0
      modifies this
      ensures accepted == RecordFormAccepts(form, currentYear)
      ensures accepted ==> records == [NewRecord(form, random)] + old(records)
      ensures !accepted ==> records == old(records)
    {
      accepted := RecordFormIssues(form, currentYear) == [];
      if accepted {
        HandleAddRecord(form, random);
      }
    }
  }
}
