/**
 The symptom-selection screen of App.tsx: the grouped symptom catalogue,
 the search filter over it, and the toggle that adds or removes a symptom
 from the selection.
 */
module SymptomPicker {
  import opened Text

  datatype Symptom = Symptom(name: string, code: string)

  /** One entry of `Object.entries(SYMPTOM_GROUPS)`: a category and its symptoms. */
  datatype SymptomGroup = SymptomGroup(category: string, symptoms: seq<Symptom>)

  /** The catalogue, in the insertion order `Object.entries` yields. */
  const SymptomGroups: seq<SymptomGroup> := [
    SymptomGroup("Digestive Health", [
      Symptom("Nausea", "NAU-203"),
      Symptom("Vomiting", "VOM-204"),
      Symptom("Diarrhea", "DIA-205"),
      Symptom("Constipation", "CON-210"),
      Symptom("No Appetite", "APP-209"),
      Symptom("Mouth Sores", "MSO-208"),
      Symptom("Abdominal Pain", "URG-110")]),
    SymptomGroup("Pain & Nerve", [
      Symptom("General Pain", "PAI-213"),
      Symptom("Headache", "URG-109"),
      Symptom("Leg/Calf Pain", "URG-111"),
      Symptom("Neuropathy", "NEU-216"),
      Symptom("Port Site Pain", "URG-114")]),
    SymptomGroup("Systemic & Infection", [
      Symptom("Fever", "FEV-202"),
      Symptom("Bleeding or Bruising", "URG-103"),
      Symptom("Fatigue", "FAT-206"),
      Symptom("Dehydration", "DEH-201"),
      Symptom("Cough", "COU-215"),
      Symptom("Urinary Problems", "URI-211")]),
    SymptomGroup("Skin & External", [
      Symptom("Skin Rash", "SKI-212"),
      Symptom("Swelling", "SWE-214"),
      Symptom("Eye Complaints", "EYE-207")])
  ]

  /** `a` is obtained from `b` by deleting elements, the rest kept in order. */
  predicate Subsequence<T(==)>(a: seq<T>, b: seq<T>)
    decreases |b|
  {
    if a == [] then true
    else if b == [] then false
    else if a[0] == b[0] then Subsequence(a[1..], b[1..])
    else Subsequence(a, b[1..])
  }

  // ---------------------------------------------------------------- toggle

  predicate HasCode(list: seq<Symptom>, code: string)
  {
    exists i :: 0 <= i < |list| && list[i].code == code
  }

  predicate UniqueCodes(list: seq<Symptom>)
  {
    forall i, j :: 0 <= i < j < |list| ==> list[i].code != list[j].code
  }

  /** `list.filter(s => s.code !== code)`. */
  function WithoutCode(list: seq<Symptom>, code: string): (r: seq<Symptom>)
    ensures Subsequence(r, list)
    ensures forall s :: s in r <==> s in list && s.code != code
    ensures forall s :: multiset(r)[s] == if s.code != code then multiset(list)[s] else 0
    ensures UniqueCodes(list) ==> UniqueCodes(r)
    decreases |list|
  {
    if list == [] then []
    else
      var rest := WithoutCode(list[1..], code);
      if list[0].code == code then
        SubsequenceSkip(rest, list);
        MultisetOfCons(list);
        rest
      else
        KeepHead(list, code, rest);
        [list[0]] + rest
  }

  /** The step of `WithoutCode` that keeps the head: each of its promises carries over. */
  lemma KeepHead(list: seq<Symptom>, code: string, rest: seq<Symptom>)
    requires list != [] && list[0].code != code
    requires Subsequence(rest, list[1..])
    requires forall s :: s in rest <==> s in list[1..] && s.code != code
    requires forall s :: multiset(rest)[s] == if s.code != code then multiset(list[1..])[s] else 0
    requires UniqueCodes(list[1..]) ==> UniqueCodes(rest)
    ensures Subsequence([list[0]] + rest, list)
    ensures forall s :: s in [list[0]] + rest <==> s in list && s.code != code
    ensures forall s :: multiset([list[0]] + rest)[s] == if s.code != code then multiset(list)[s] else 0
    ensures UniqueCodes(list) ==> UniqueCodes([list[0]] + rest)
  {
    var r := [list[0]] + rest;
    assert r[1..] == rest;
    MultisetOfCons(list);
    MultisetOfCons(r);
    assert list == [list[0]] + list[1..];
    if UniqueCodes(list) {
      assert UniqueCodes(list[1..]) by {
        forall i, j | 0 <= i < j < |list[1..]| ensures list[1..][i].code != list[1..][j].code {
          assert list[1..][i] == list[i + 1] && list[1..][j] == list[j + 1];
        }
      }
      UniqueCons(list, rest);
    }
  }

  lemma MultisetOfCons<T>(xs: seq<T>)
    requires xs != []
    ensures multiset(xs) == multiset{xs[0]} + multiset(xs[1..])
  {
    assert xs == [xs[0]] + xs[1..];
  }

  /** Putting the head of a code-unique list before entries of its tail keeps the codes unique. */
  lemma UniqueCons(list: seq<Symptom>, rest: seq<Symptom>)
    requires list != [] && UniqueCodes(list) && UniqueCodes(rest)
    requires forall s :: s in rest ==> s in list[1..]
    ensures UniqueCodes([list[0]] + rest)
  {
    var r := [list[0]] + rest;
    forall i, j | 0 <= i < j < |r| ensures r[i].code != r[j].code {
      if i == 0 {
        assert r[j] in list[1..];
        var k :| 0 <= k < |list[1..]| && list[1..][k] == r[j];
        assert list[k + 1] == r[j];
      } else {
        assert r[i] == rest[i - 1] && r[j] == rest[j - 1];
      }
    }
  }

  /** Dropping the head of `b` keeps every subsequence of its tail a subsequence of `b`. */
  lemma SubsequenceSkip<T>(a: seq<T>, b: seq<T>)
    requires b != [] && Subsequence(a, b[1..])
    ensures Subsequence(a, b)
    decreases |b|, 0
  {
    if a != [] && a[0] == b[0] {
      SubsequenceTail(a, b[1..]);
    }
  }

  lemma SubsequenceTail<T>(a: seq<T>, b: seq<T>)
    requires a != [] && Subsequence(a, b)
    ensures Subsequence(a[1..], b)
    decreases |b|, 1
  {
    if a[0] == b[0] {
      if a[1..] != [] && |b| > 0 {
        SubsequenceSkip(a[1..], b);
      }
    } else {
      SubsequenceTail(a, b[1..]);
      if a[1..] != [] { SubsequenceSkip(a[1..], b); }
    }
  }

  /** `toggleSymptom`: drop every entry with the code if one is present, otherwise append the symptom. */
  function Toggle(prev: seq<Symptom>, name: string, code: string): (r: seq<Symptom>)
    ensures HasCode(prev, code) ==>
              && !HasCode(r, code)
              && Subsequence(r, prev)
              && (forall s :: s in r <==> s in prev && s.code != code)
              && (forall s :: multiset(r)[s] == if s.code != code then multiset(prev)[s] else 0)
    ensures !HasCode(prev, code) ==> r == prev + [Symptom(name, code)] && HasCode(r, code)
  {
    if HasCode(prev, code) then
      WithoutCode(prev, code)
    else
      var r := prev + [Symptom(name, code)];
      assert r[|prev|].code == code;
      r
  }

  lemma {:induction false} WithoutAbsentCode(list: seq<Symptom>, code: string)
    requires !HasCode(list, code)
    ensures WithoutCode(list, code) == list
    decreases |list|
  {
    if list != [] {
      assert list[0].code != code;
      WithoutAbsentCode(list[1..], code);
      assert list == [list[0]] + list[1..];
    }
  }

  /** Toggling an unselected symptom twice gives back the original selection. */
  lemma ToggleTwiceRestores(prev: seq<Symptom>, name: string, code: string)
    requires !HasCode(prev, code)
    ensures Toggle(Toggle(prev, name, code), name, code) == prev
  {
    var once := prev + [Symptom(name, code)];
    assert WithoutCode(once, code) == WithoutCode(prev, code) by {
      WithoutCodeAppend(prev, Symptom(name, code), code);
    }
    WithoutAbsentCode(prev, code);
  }

  lemma {:induction false} WithoutCodeAppend(list: seq<Symptom>, s: Symptom, code: string)
    requires s.code == code
    ensures WithoutCode(list + [s], code) == WithoutCode(list, code)
    decreases |list|
  {
    if list == [] {
      assert [s][1..] == [];
    } else {
      assert (list + [s])[1..] == list[1..] + [s];
      WithoutCodeAppend(list[1..], s, code);
    }
  }

  /** The selection never holds two entries with the same code. */
  lemma ToggleKeepsCodesUnique(prev: seq<Symptom>, name: string, code: string)
    requires UniqueCodes(prev)
    ensures UniqueCodes(Toggle(prev, name, code))
  {
    if !HasCode(prev, code) {
      var r := prev + [Symptom(name, code)];
      forall i, j | 0 <= i < j < |r| ensures r[i].code != r[j].code {
        if j == |prev| {
          assert r[i] == prev[i];
        }
      }
    }
  }

  // ---------------------------------------------------------------- search

  /** `s.name.toLowerCase().includes(query)`. */
  predicate Matches(s: Symptom, query: string)
  {
    Contains(ToLower(s.name), query)
  }

  /** `symptoms.filter(s => s.name.toLowerCase().includes(query))`. */
  function NarrowSymptoms(symptoms: seq<Symptom>, query: string): (r: seq<Symptom>)
    ensures Subsequence(r, symptoms)
    ensures forall s :: s in r <==> s in symptoms && Matches(s, query)
    ensures forall s :: multiset(r)[s] == if Matches(s, query) then multiset(symptoms)[s] else 0
    decreases |symptoms|
  {
    if symptoms == [] then []
    else
      var rest := NarrowSymptoms(symptoms[1..], query);
      MultisetOfCons(symptoms);
      if Matches(symptoms[0], query) then
        assert ([symptoms[0]] + rest)[1..] == rest;
        [symptoms[0]] + rest
      else
        assert Subsequence(rest, symptoms) by { SubsequenceSkip(rest, symptoms); }
        rest
  }

  /** The `map` step: every group with its symptoms narrowed, categories and order untouched. */
  function NarrowGroups(groups: seq<SymptomGroup>, query: string): (r: seq<SymptomGroup>)
    ensures |r| == |groups|
    ensures forall i :: 0 <= i < |r| ==>
              && r[i].category == groups[i].category
              && (forall s :: s in r[i].symptoms <==> s in groups[i].symptoms && Matches(s, query))
    ensures forall i :: 0 <= i < |r| ==> Subsequence(r[i].symptoms, groups[i].symptoms)
    ensures forall i :: 0 <= i < |r| ==>
              forall s :: multiset(r[i].symptoms)[s] == if Matches(s, query) then multiset(groups[i].symptoms)[s] else 0
  {
    seq(|groups|, i requires 0 <= i < |groups| =>
      SymptomGroup(groups[i].category, NarrowSymptoms(groups[i].symptoms, query)))
  }

  /** The `filter` step: keep the groups that still have a symptom. */
  function DropEmpty(groups: seq<SymptomGroup>): (r: seq<SymptomGroup>)
    ensures Subsequence(r, groups)
    ensures forall g :: g in r <==> g in groups && |g.symptoms| > 0
    ensures forall g :: multiset(r)[g] == if |g.symptoms| > 0 then multiset(groups)[g] else 0
    decreases |groups|
  {
    if groups == [] then []
    else
      var rest := DropEmpty(groups[1..]);
      MultisetOfCons(groups);
      if |groups[0].symptoms| > 0 then
        assert ([groups[0]] + rest)[1..] == rest;
        [groups[0]] + rest
      else
        assert Subsequence(rest, groups) by { SubsequenceSkip(rest, groups); }
        rest
  }

  /** `filteredGroups`: all groups for a blank search, else the non-empty narrowed groups. */
  function FilteredGroups(groups: seq<SymptomGroup>, search: string): (r: seq<SymptomGroup>)
    ensures IsBlank(search) ==> r == groups
    ensures !IsBlank(search) ==>
              forall g :: g in r ==> |g.symptoms| > 0 && g in NarrowGroups(groups, ToLower(search))
  {
    if Trim(search) == "" then groups
    else DropEmpty(NarrowGroups(groups, ToLower(search)))
  }

  /**
   A non-blank search shows only non-empty groups, every shown symptom's
   lower-cased name contains the lower-cased search (untrimmed), and every
   shown group is its original group narrowed, in the original order.
   */
  lemma SearchShowsOnlyMatches(groups: seq<SymptomGroup>, search: string)
    requires !IsBlank(search)
    ensures var r := FilteredGroups(groups, search);
            && Subsequence(r, NarrowGroups(groups, ToLower(search)))
            && (forall g :: g in r ==> |g.symptoms| > 0)
            && (forall g, s :: g in r && s in g.symptoms ==>
                  exists i :: OccursAt(ToLower(s.name), ToLower(search), i))
  {
    var q := ToLower(search);
    var r := FilteredGroups(groups, search);
    forall g, s | g in r && s in g.symptoms
      ensures exists i :: OccursAt(ToLower(s.name), q, i)
    {
      var k :| 0 <= k < |groups| && NarrowGroups(groups, q)[k] == g;
      assert s in NarrowSymptoms(groups[k].symptoms, q);
    }
  }

  /** No matching symptom is hidden: it is shown under its own category. */
  lemma SearchHidesNoMatch(groups: seq<SymptomGroup>, search: string, k: nat, s: Symptom)
    requires !IsBlank(search)
    requires k < |groups| && s in groups[k].symptoms
    requires exists i :: OccursAt(ToLower(s.name), ToLower(search), i)
    ensures exists g :: g in FilteredGroups(groups, search) && g.category == groups[k].category && s in g.symptoms
  {
    var q := ToLower(search);
    var g := NarrowGroups(groups, q)[k];
    assert s in g.symptoms;
    assert g in FilteredGroups(groups, search);
  }

  function Categories(groups: seq<SymptomGroup>): seq<string>
  {
    seq(|groups|, i requires 0 <= i < |groups| => groups[i].category)
  }

  lemma {:induction false} SubsequenceCategories(a: seq<SymptomGroup>, b: seq<SymptomGroup>)
    requires Subsequence(a, b)
    ensures Subsequence(Categories(a), Categories(b))
    decreases |b|
  {
    if a != [] && b != [] {
      assert Categories(b)[1..] == Categories(b[1..]);
      if a[0] == b[0] {
        assert Categories(a)[1..] == Categories(a[1..]);
        SubsequenceCategories(a[1..], b[1..]);
        assert Categories(a)[0] == Categories(b)[0];
      } else {
        SubsequenceCategories(a, b[1..]);
        SubsequenceSkip(Categories(a), Categories(b));
      }
    }
  }

  /** A non-blank search shows only matching symptoms (the form the screen's contract states). */
  lemma ShownMatchesSearch(groups: seq<SymptomGroup>, search: string)
    ensures !IsBlank(search) ==>
              forall g, s :: g in FilteredGroups(groups, search) && s in g.symptoms ==> Matches(s, ToLower(search))
  {
    if !IsBlank(search) { SearchShowsExactlyMatches(groups, search); }
  }

  /** A non-blank search shows every matching symptom of `groups` and only those, each under its own category. */
  lemma SearchShowsExactlyMatches(groups: seq<SymptomGroup>, search: string)
    requires !IsBlank(search)
    ensures forall g, s :: g in FilteredGroups(groups, search) && s in g.symptoms ==> Matches(s, ToLower(search))
    ensures forall k, s :: 0 <= k < |groups| && s in groups[k].symptoms && Matches(s, ToLower(search)) ==>
              exists g :: g in FilteredGroups(groups, search) && g.category == groups[k].category && s in g.symptoms
  {
    SearchShowsOnlyMatches(groups, search);
    forall k, s | 0 <= k < |groups| && s in groups[k].symptoms && Matches(s, ToLower(search))
      ensures exists g :: g in FilteredGroups(groups, search) && g.category == groups[k].category && s in g.symptoms
    {
      SearchHidesNoMatch(groups, search, k, s);
    }
  }

  /** The categories shown keep the catalogue's order. */
  lemma SearchKeepsCategoryOrder(groups: seq<SymptomGroup>, search: string)
    ensures Subsequence(Categories(FilteredGroups(groups, search)), Categories(groups))
  {
    if Trim(search) == "" {
      SubsequenceReflexive(Categories(groups));
    } else {
      var n := NarrowGroups(groups, ToLower(search));
      assert Categories(n) == Categories(groups);
      SubsequenceCategories(DropEmpty(n), n);
    }
  }

  lemma {:induction false} SubsequenceReflexive<T>(a: seq<T>)
    ensures Subsequence(a, a)
    decreases |a|
  {
    if a != [] { SubsequenceReflexive(a[1..]); }
  }
}
