/** Grouping a list by a string key into a `Map<string, T[]>`, the `if (!groups.has(key))
    groups.set(key, []); groups.get(key)!.push(item)` loop both deduplication passes use
    (dedupe.ts, lines 16-29 and 80-94). */
module Grouping {
  import opened Sorting
  import opened OrderedMaps

  /** The groups of `s`: keys in order of first occurrence, members in input order. */
  function GroupBy<T>(s: seq<T>, key: T -> string): (g: OrderedMap<string, seq<T>>)
    ensures g.Valid()
    decreases |s|
  {
    if s == [] then Empty()
    else
      var prev := GroupBy(s[..|s| - 1], key);
      var x := s[|s| - 1];
      var k := key(x);
      prev.Set(k, (if k in prev.entries then prev.entries[k] else []) + [x])
  }

  /** Grouping one more element appends it to the group of its key. */
  lemma GroupBySnoc<T>(s: seq<T>, x: T, key: T -> string)
    ensures var g := GroupBy(s, key);
      GroupBy(s + [x], key) == g.Set(key(x), (if key(x) in g.entries then g.entries[key(x)] else []) + [x])
  {
    assert (s + [x])[..|s|] == s;
  }

  /** There are no more groups than elements. */
  lemma {:induction false} GroupCountBound<T>(s: seq<T>, key: T -> string)
    ensures |GroupBy(s, key).keys| <= |s|
    decreases |s|
  {
    if s != [] {
      GroupCountBound(s[..|s| - 1], key);
    }
  }

  /** Membership in the group of `k`. */
  function HasKey<T>(key: T -> string, k: string): T -> bool {
    x => key(x) == k
  }

  /** A group holds exactly the elements with its key, in order; every element's key has a
      group, and no group is empty. */
  lemma {:induction false} GroupByMembers<T>(s: seq<T>, key: T -> string)
    ensures forall k | k in GroupBy(s, key).entries :: GroupBy(s, key).entries[k] == Filter(s, HasKey(key, k))
    ensures forall i | 0 <= i < |s| :: key(s[i]) in GroupBy(s, key).entries
    ensures forall k | k in GroupBy(s, key).entries :: GroupBy(s, key).entries[k] != []
    decreases |s|
  {
    if s != [] {
      var init := s[..|s| - 1];
      var x := s[|s| - 1];
      GroupByMembers(init, key);
      var prev := GroupBy(init, key);
      var g := GroupBy(s, key);
      forall k | k in g.entries ensures g.entries[k] == Filter(s, HasKey(key, k)) {
        if k == key(x) {
          if k !in prev.entries {
            NoneWithKey(init, key, k);
          }
        }
      }
      forall i | 0 <= i < |s| ensures key(s[i]) in g.entries {
        if i < |s| - 1 { assert s[i] == init[i]; }
      }
    }
  }

  lemma NoneWithKey<T>(s: seq<T>, key: T -> string, k: string)
    requires forall i | 0 <= i < |s| :: key(s[i]) != k
    ensures Filter(s, HasKey(key, k)) == []
  {
  }

  /** No group is empty. */
  lemma GroupValuesNonEmpty<T>(s: seq<T>, key: T -> string)
    ensures forall i | 0 <= i < |GroupBy(s, key).Values()| :: GroupBy(s, key).Values()[i] != []
  {
    GroupByMembers(s, key);
  }

  /** One member of every group, in key order: elements of `s`, one per key, with pairwise
      distinct keys, and every key of `s` among them. */
  lemma GroupPicks<T>(s: seq<T>, key: T -> string, picks: seq<T>)
    requires |picks| == |GroupBy(s, key).keys|
    requires forall i | 0 <= i < |picks| :: picks[i] in GroupBy(s, key).Values()[i]
    ensures forall i | 0 <= i < |picks| :: picks[i] in s && key(picks[i]) == GroupBy(s, key).keys[i]
    ensures KeysDistinct(picks, key)
    ensures forall i | 0 <= i < |s| :: exists j | 0 <= j < |picks| :: key(picks[j]) == key(s[i])
  {
    var g := GroupBy(s, key);
    GroupByMembers(s, key);
    forall i | 0 <= i < |picks| ensures picks[i] in s && key(picks[i]) == g.keys[i] {
      var members := Filter(s, HasKey(key, g.keys[i]));
      assert g.Values()[i] == members;
      var m :| 0 <= m < |members| && members[m] == picks[i];
      assert HasKey(key, g.keys[i])(members[m]);
    }
    forall i | 0 <= i < |s| ensures exists j | 0 <= j < |picks| :: key(picks[j]) == key(s[i]) {
      assert key(s[i]) in g.keys;
      var j :| 0 <= j < |g.keys| && g.keys[j] == key(s[i]);
      assert key(picks[j]) == key(s[i]);
    }
  }

  /** `picks` takes one member from each non-empty group, in group order. */
  predicate ChoiceOf<T(==)>(picks: seq<T>, gs: seq<seq<T>>)
    decreases |gs|
  {
    if gs == [] then picks == []
    else if gs[|gs| - 1] == [] then ChoiceOf(picks, gs[..|gs| - 1])
    else picks != [] && picks[|picks| - 1] in gs[|gs| - 1] && ChoiceOf(picks[..|picks| - 1], gs[..|gs| - 1])
  }

  /** An empty group adds nothing to a choice. */
  lemma ChoiceSkip<T>(picks: seq<T>, gs: seq<seq<T>>, j: nat)
    requires j < |gs| && gs[j] == [] && ChoiceOf(picks, gs[..j])
    ensures ChoiceOf(picks, gs[..j + 1])
  {
    assert gs[..j + 1][..j] == gs[..j];
  }

  /** A member of the next group, appended, extends a choice. */
  lemma ChoiceAppend<T>(picks: seq<T>, gs: seq<seq<T>>, j: nat, pick: T)
    requires j < |gs| && pick in gs[j] && ChoiceOf(picks, gs[..j])
    ensures ChoiceOf(picks + [pick], gs[..j + 1])
  {
    assert gs[..j + 1][..j] == gs[..j];
    assert (picks + [pick])[..|picks|] == picks;
  }

  /** With no empty group, a choice has one pick per group, each a member of it. */
  lemma {:induction false} ChoicePerGroup<T>(picks: seq<T>, gs: seq<seq<T>>)
    requires ChoiceOf(picks, gs)
    requires forall i | 0 <= i < |gs| :: gs[i] != []
    ensures |picks| == |gs|
    ensures forall i | 0 <= i < |gs| :: picks[i] in gs[i]
    decreases |gs|
  {
    if gs != [] {
      var init := gs[..|gs| - 1];
      assert forall i | 0 <= i < |init| :: init[i] == gs[i];
      ChoicePerGroup(picks[..|picks| - 1], init);
      assert forall i | 0 <= i < |picks| - 1 :: picks[i] == picks[..|picks| - 1][i];
    }
  }

  /** A choice from the groups of `s`: one element of `s` per key, the `j`-th from the
      group that holds every element with its key. */
  lemma GroupChoice<T>(s: seq<T>, key: T -> string, picks: seq<T>)
    requires ChoiceOf(picks, GroupBy(s, key).Values())
    ensures |picks| == |GroupBy(s, key).keys|
    ensures forall j | 0 <= j < |picks| :: picks[j] in s
    ensures KeysDistinct(picks, key)
    ensures forall i | 0 <= i < |s| :: exists j | 0 <= j < |picks| :: key(picks[j]) == key(s[i])
  {
    GroupValuesNonEmpty(s, key);
    ChoicePerGroup(picks, GroupBy(s, key).Values());
    GroupPicks(s, key, picks);
  }

  /** A choice from the groups of the elements that satisfy `p` picks such elements of `s`,
      with pairwise distinct keys. */
  lemma FilteredChoice<T>(s: seq<T>, p: T -> bool, key: T -> string, picks: seq<T>)
    requires ChoiceOf(picks, GroupBy(Filter(s, p), key).Values())
    ensures forall j | 0 <= j < |picks| :: picks[j] in s && p(picks[j])
    ensures KeysDistinct(picks, key)
  {
    var t := Filter(s, p);
    GroupChoice(t, key, picks);
    forall j | 0 <= j < |picks| ensures picks[j] in s && p(picks[j]) {
      var m :| 0 <= m < |t| && t[m] == picks[j];
    }
  }

  /** The group a pick comes from holds every element with the pick's key. */
  lemma ChoiceGroupHoldsKey<T>(s: seq<T>, key: T -> string, picks: seq<T>, j: int, x: T)
    requires ChoiceOf(picks, GroupBy(s, key).Values())
    requires 0 <= j < |picks| && x in s && key(x) == key(picks[j])
    ensures j < |GroupBy(s, key).Values()| && x in GroupBy(s, key).Values()[j]
  {
    var g := GroupBy(s, key);
    GroupValuesNonEmpty(s, key);
    ChoicePerGroup(picks, g.Values());
    GroupPicks(s, key, picks);
    GroupByMembers(s, key);
    assert g.Values()[j] == Filter(s, HasKey(key, g.keys[j]));
    FilterComplete(s, HasKey(key, g.keys[j]));
    assert HasKey(key, g.keys[j])(x);
  }

  /** The same for any permutation of the picks, such as the sorted list. */
  lemma PermutedChoice<T>(s: seq<T>, key: T -> string, picks: seq<T>, out: seq<T>)
    requires ChoiceOf(picks, GroupBy(s, key).Values())
    requires multiset(out) == multiset(picks)
    ensures forall j | 0 <= j < |out| :: out[j] in s
    ensures KeysDistinct(out, key)
    ensures forall i | 0 <= i < |s| :: exists j | 0 <= j < |out| :: key(out[j]) == key(s[i])
  {
    GroupChoice(s, key, picks);
    PermutedPicks(s, key, picks, out);
  }

  /** The grouping loop. */
  method GroupInto<T>(s: seq<T>, key: T -> string) returns (groups: OrderedMap<string, seq<T>>)
    ensures groups == GroupBy(s, key)
  {
    groups := Empty();
    var i := 0;
    while i < |s|
      invariant 0 <= i <= |s|
      invariant groups == GroupBy(s[..i], key)
    {
      assert s[..i + 1][..i] == s[..i];
      var item := s[i];
      var k := key(item);
      var members := if k in groups.entries then groups.entries[k] else [];
      groups := groups.Set(k, members + [item]);
      i := i + 1;
    }
    assert s[..i] == s;
  }
}
