/**
 * The people page: a list of names kept by the browser, grown by the Add
 * button from the text field and shrunk by each row's remove button.
 */
module People {
  import opened Text
  import opened Lists
  import opened Optional

  /** What `addPerson` did: added the name, or refused a blank or repeated one. */
  datatype AddOutcome = Added | BlankName | DuplicateName

  /** A name as `addPerson` stores it: non-empty, with nothing left to trim. */
  predicate IsName(s: string)
  {
    s != [] && Trim(s) == s
  }

  /** Every entry is a trimmed, non-empty name, and no name appears twice. */
  predicate WellFormed(people: seq<string>)
  {
    NoDuplicates(people) && forall n :: n in people ==> IsName(n)
  }

  /** Appending a new name keeps the list well formed. */
  lemma AppendKeepsWellFormed(people: seq<string>, n: string)
    requires WellFormed(people) && IsName(n) && n !in people
    ensures WellFormed(people + [n])
  {
    var more := people + [n];
    assert forall m :: m in more ==> m in people || m == n;
    forall i, j | 0 <= i < j < |more| ensures more[i] != more[j] {
      if j == |people| {
        assert more[i] in people;
      }
    }
  }

  class PeopleList {
    var people: seq<string>
    var name: string

    predicate Valid()
      reads this
    {
      WellFormed(people)
    }

    constructor()
      ensures people == [] && name == ""
      ensures Valid()
    {
      people := [];
      name := "";
    }

    /**
     * The page's first effect: a list found in browser storage under
     * `people` replaces the empty one; nothing found leaves the list alone.
     * The page trusts the stored list, so it is well formed only when what
     * was stored is.
     */
    method Load(saved: Option<seq<string>>)
      modifies this`people
      ensures saved.Some? ==> people == saved.value
      ensures saved.None? ==> people == old(people)
      ensures (saved.Some? && WellFormed(saved.value)) || (saved.None? && old(Valid())) ==> Valid()
    {
      if saved.Some? {
        people := saved.value;
      }
    }

    /**
     * `addPerson`: refuses a name that is blank after trimming or whose
     * trimmed form is already listed, leaving the list and the field alone;
     * otherwise appends the trimmed name and clears the field.
     */
    method AddPerson() returns (outcome: AddOutcome)
      modifies this
      ensures outcome == BlankName <==> Trim(old(name)) == []
      ensures outcome == DuplicateName <==> Trim(old(name)) != [] && Trim(old(name)) in old(people)
      ensures outcome != Added ==> people == old(people) && name == old(name)
      ensures outcome == Added ==> people == old(people) + [Trim(old(name))] && name == ""
      ensures old(Valid()) ==> Valid()
    {
      var trimmed := Trim(name);
      if trimmed == [] {
        return BlankName;
      }
      if trimmed in people {
        return DuplicateName;
      }
      TrimIdempotent(name);
      if Valid() {
        AppendKeepsWellFormed(people, trimmed);
      }
      people := people + [trimmed];
      name := "";
      outcome := Added;
    }

    /** `removePerson(index)`: drops the entry at `index`; an index out of range changes nothing. */
    method RemovePerson(index: int)
      modifies this`people
      ensures people == WithoutIndex(old(people), index)
      ensures 0 <= index < |old(people)| ==> |people| == |old(people)| - 1
      ensures old(Valid()) ==> Valid()
    {
      WithoutIndexIsSubsequence(people, index);
      if Valid() {
        RemovalKeepsWellFormed(people, index);
      }
      people := WithoutIndex(people, index);
    }
  }

  /** Removing one entry keeps the list well formed. */
  lemma RemovalKeepsWellFormed(people: seq<string>, index: int)
    requires WellFormed(people)
    ensures WellFormed(WithoutIndex(people, index))
  {
    var rest := WithoutIndex(people, index);
    WithoutIndexIsSubsequence(people, index);
    SubsequenceKeepsNoDuplicates(rest, people);
    SubsequenceMembers(rest, people);
  }
}
