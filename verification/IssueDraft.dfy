/** The form state of the issue-entry screen: a six-property draft record,
    its initial all-empty value, and the `handleChange` update. */
module IssueDraft {
  import opened JsValues

  /** The six properties of the form object; every `handleChange` call site
      passes one of these keys. */
  datatype Field = RoomNumber | IssueTitle | IssueDescription | Category | Source | AssignedPerson

  datatype Draft = Draft(
    roomNumber: Value,
    issueTitle: Value,
    issueDescription: Value,
    category: Value,
    source: Value,
    assignedPerson: Value)

  /** `formState[f]`. */
  function Get(d: Draft, f: Field): Value {
    match f
    case RoomNumber => d.roomNumber
    case IssueTitle => d.issueTitle
    case IssueDescription => d.issueDescription
    case Category => d.category
    case Source => d.source
    case AssignedPerson => d.assignedPerson
  }

  /** The draft the screen mounts with, and the one a successful submission
      restores. */
  const Empty: Draft := Draft(Str(""), Str(""), Str(""), Str(""), Str(""), Str(""))

  lemma EmptyIsBlank(f: Field)
    ensures Get(Empty, f) == Str("")
  {
  }

  /** Two drafts that agree on every field are the same draft. */
  lemma Extensionality(a: Draft, b: Draft)
    requires forall f :: Get(a, f) == Get(b, f)
    ensures a == b
  {
    assert Get(a, RoomNumber) == Get(b, RoomNumber);
    assert Get(a, IssueTitle) == Get(b, IssueTitle);
    assert Get(a, IssueDescription) == Get(b, IssueDescription);
    assert Get(a, Category) == Get(b, Category);
    assert Get(a, Source) == Get(b, Source);
    assert Get(a, AssignedPerson) == Get(b, AssignedPerson);
  }

  /** `handleChange(f, v)`: `{ ...formState, [f]: v }`. */
  function SetField(d: Draft, f: Field, v: Value): (r: Draft)
    ensures Get(r, f) == v
    ensures forall g :: g != f ==> Get(r, g) == Get(d, g)
  {
    match f
    case RoomNumber => d.(roomNumber := v)
    case IssueTitle => d.(issueTitle := v)
    case IssueDescription => d.(issueDescription := v)
    case Category => d.(category := v)
    case Source => d.(source := v)
    case AssignedPerson => d.(assignedPerson := v)
  }

  /** One `handleChange` call. */
  datatype Change = Change(field: Field, value: Value)

  /** The draft after the calls `cs`, first to last. */
  function ApplyAll(d: Draft, cs: seq<Change>): Draft
    decreases |cs|
  {
    if cs == [] then d else ApplyAll(SetField(d, cs[0].field, cs[0].value), cs[1..])
  }

  /** The value of the last call in `cs` that wrote `f`, if any: the
      reference definition the draft is compared with. */
  function LastWrite(cs: seq<Change>, f: Field): Option<Value>
    decreases |cs|
  {
    if cs == [] then None
    else if cs[|cs| - 1].field == f then Some(cs[|cs| - 1].value)
    else LastWrite(cs[..|cs| - 1], f)
  }

  lemma {:induction false} ApplyAllSnoc(d: Draft, cs: seq<Change>, c: Change)
    ensures ApplyAll(d, cs + [c]) == SetField(ApplyAll(d, cs), c.field, c.value)
    decreases |cs|
  {
    if cs == [] {
      assert cs + [c] == [c];
    } else {
      assert (cs + [c])[1..] == cs[1..] + [c];
      ApplyAllSnoc(SetField(d, cs[0].field, cs[0].value), cs[1..], c);
    }
  }

  /** After any sequence of changes each field holds the last value written
      to it, or its earlier value when no change touched it. */
  lemma {:induction false} LastWriteWins(d: Draft, cs: seq<Change>, f: Field)
    ensures Get(ApplyAll(d, cs), f) == (match LastWrite(cs, f) case Some(v) => v case None => Get(d, f))
    decreases |cs|
  {
    if cs != [] {
      var init, c := cs[..|cs| - 1], cs[|cs| - 1];
      assert cs == init + [c];
      ApplyAllSnoc(d, init, c);
      LastWriteWins(d, init, f);
    }
  }

  /** The order of changes matters only through the last write to each
      field: two sequences with the same last writes yield the same draft. */
  lemma SameLastWritesSameDraft(d: Draft, cs1: seq<Change>, cs2: seq<Change>)
    requires forall f :: LastWrite(cs1, f) == LastWrite(cs2, f)
    ensures ApplyAll(d, cs1) == ApplyAll(d, cs2)
  {
    forall f ensures Get(ApplyAll(d, cs1), f) == Get(ApplyAll(d, cs2), f) {
      LastWriteWins(d, cs1, f);
      LastWriteWins(d, cs2, f);
    }
    Extensionality(ApplyAll(d, cs1), ApplyAll(d, cs2));
  }

  /** Changes to two different fields commute. */
  lemma DistinctFieldsCommute(d: Draft, f: Field, v: Value, g: Field, w: Value)
    requires f != g
    ensures SetField(SetField(d, f, v), g, w) == SetField(SetField(d, g, w), f, v)
  {
    Extensionality(SetField(SetField(d, f, v), g, w), SetField(SetField(d, g, w), f, v));
  }
}
