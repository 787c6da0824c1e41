/** The last two steps of `consolidate_all_files`: first-wins removal of
    contacts sharing a lowered, stripped (name, organisation) key, then a
    stable sort by relevance score descending and name ascending. */
module MasterList {
  import opened Strings
  import opened KeyedDedup

  /** The fields of a consolidated contact that the two steps look at; the
      other columns travel along in `fields`. */
  datatype MasterContact = MasterContact(
    name: string,
    organisation: string,
    relevanceScore: int,
    fields: map<string, string>)

  /** The duplicate-detection key of `remove_duplicates`. */
  function DuplicateKey(c: MasterContact): (string, string) {
    (Strip(Lower(c.name)), Strip(Lower(c.organisation)))
  }

  /** `remove_duplicates`: the first contact of every key, in input order. */
  function RemoveDuplicates(contacts: seq<MasterContact>): (r: seq<MasterContact>)
    ensures |r| <= |contacts|
    ensures forall c :: c in r ==> c in contacts
    ensures IsSubsequence(r, contacts)
    ensures DistinctKeys(r, DuplicateKey)
    ensures Keys(r, DuplicateKey) == Keys(contacts, DuplicateKey)
  {
    KeepFirstBy(contacts, DuplicateKey)
  }

  /** The first contact of every key is the one kept. */
  lemma FirstContactKept(contacts: seq<MasterContact>, i: int)
    requires 0 <= i < |contacts| && FirstOfKey(contacts, DuplicateKey, i)
    ensures contacts[i] in RemoveDuplicates(contacts)
  {
    FirstOfKeyKept(contacts, DuplicateKey, i);
  }

  /** Removing duplicates a second time changes nothing. */
  lemma RemoveDuplicatesIdempotent(contacts: seq<MasterContact>)
    ensures RemoveDuplicates(RemoveDuplicates(contacts)) == RemoveDuplicates(contacts)
  {
    KeepFirstByIdempotent(contacts, DuplicateKey);
  }

  /** A list whose keys are already distinct passes through unchanged. */
  lemma DistinctContactsUnchanged(contacts: seq<MasterContact>)
    requires DistinctKeys(contacts, DuplicateKey)
    ensures RemoveDuplicates(contacts) == contacts
  {
    KeepFirstFromDistinct(contacts, DuplicateKey, {});
  }

  // ---------------------------------------------------------------------------
  // Sort by (-relevance_score, name)
  // ---------------------------------------------------------------------------

  /** The sort key of `a` is smaller than that of `b`: a higher relevance
      score, or the same score and a name earlier in code-point order. */
  predicate SortsBefore(a: MasterContact, b: MasterContact) {
    a.relevanceScore > b.relevanceScore
    || (a.relevanceScore == b.relevanceScore && LexLess(a.name, b.name))
  }

  /** Equal sort keys. */
  predicate SameSortKey(a: MasterContact, b: MasterContact) {
    a.relevanceScore == b.relevanceScore && a.name == b.name
  }

  predicate Sorted(s: seq<MasterContact>) {
    forall i, j :: 0 <= i < j < |s| ==> !SortsBefore(s[j], s[i])
  }

  /** The contacts of `s` whose sort key equals that of `x`, in order. */
  function Ties(s: seq<MasterContact>, x: MasterContact): (r: seq<MasterContact>)
    ensures |r| <= |s|
  {
    if |s| == 0 then []
    else if SameSortKey(s[0], x) then [s[0]] + Ties(s[1..], x)
    else Ties(s[1..], x)
  }

  /** Places `x` in front of the first element of the sorted `s` that does not
      sort before it, so that `x` precedes the elements it ties with. */
  function Insert(x: MasterContact, s: seq<MasterContact>): (r: seq<MasterContact>)
    ensures |r| == |s| + 1
  {
    if |s| == 0 then [x]
    else if !SortsBefore(s[0], x) then [x] + s
    else [s[0]] + Insert(x, s[1..])
  }

  /** `list.sort(key=lambda x: (-x['relevance_score'], x['name']))`: an
      insertion sort that puts each contact ahead of its ties in the sorted
      remainder, so it is stable as Python's sort is. */
  function SortByRelevance(s: seq<MasterContact>): (r: seq<MasterContact>)
    ensures |r| == |s|
  {
    if |s| == 0 then [] else Insert(s[0], SortByRelevance(s[1..]))
  }

  lemma SortsBeforeIrreflexive(a: MasterContact)
    ensures !SortsBefore(a, a)
  {
    LexLessIrreflexive(a.name);
  }

  lemma SortsBeforeTransitive(a: MasterContact, b: MasterContact, c: MasterContact)
    requires SortsBefore(a, b) && SortsBefore(b, c)
    ensures SortsBefore(a, c)
  {
    if a.relevanceScore == b.relevanceScore == c.relevanceScore {
      LexLessTransitive(a.name, b.name, c.name);
    }
  }

  /** Of two contacts, one sorts before the other unless their keys are equal. */
  lemma SortsBeforeTotal(a: MasterContact, b: MasterContact)
    ensures SortsBefore(a, b) || SortsBefore(b, a) || SameSortKey(a, b)
  {
    if a.relevanceScore == b.relevanceScore && a.name != b.name {
      LexLessTotal(a.name, b.name);
    }
  }

  /** `x` may go in front of a sorted list whose head does not sort before it. */
  lemma PrependSorted(x: MasterContact, s: seq<MasterContact>)
    requires Sorted(s) && (|s| == 0 || !SortsBefore(s[0], x))
    ensures Sorted([x] + s)
  {
    var r := [x] + s;
    forall j | 1 <= j < |r|
      ensures !SortsBefore(r[j], x)
    {
      assert r[j] == s[j - 1];
      if j > 1 && SortsBefore(s[j - 1], x) {
        SortsBeforeTotal(s[j - 1], s[0]);
        if SortsBefore(s[0], s[j - 1]) {
          SortsBeforeTransitive(s[0], s[j - 1], x);
        }
      }
    }
    forall i, j | 1 <= i < j < |r|
      ensures !SortsBefore(r[j], r[i])
    {
      assert r[i] == s[i - 1] && r[j] == s[j - 1];
    }
  }

  lemma {:induction false} InsertSorted(x: MasterContact, s: seq<MasterContact>)
    requires Sorted(s)
    ensures Sorted(Insert(x, s))
    ensures multiset(Insert(x, s)) == multiset(s) + multiset{x}
  {
    if |s| == 0 || !SortsBefore(s[0], x) {
      PrependSorted(x, s);
    } else {
      var rest := Insert(x, s[1..]);
      assert Sorted(s[1..]) by {
        forall i, j | 0 <= i < j < |s[1..]|
          ensures !SortsBefore(s[1..][j], s[1..][i])
        {
          assert s[1..][i] == s[i + 1] && s[1..][j] == s[j + 1];
        }
      }
      InsertSorted(x, s[1..]);
      assert s == [s[0]] + s[1..];
      forall y | y in rest
        ensures !SortsBefore(y, s[0])
      {
        assert y in multiset(rest);
        if y != x {
          assert y in s[1..];
          var k :| 0 <= k < |s[1..]| && s[1..][k] == y;
          assert s[k + 1] == y;
        } else if SortsBefore(x, s[0]) {
          SortsBeforeTransitive(x, s[0], x);
          SortsBeforeIrreflexive(x);
        }
      }
      ConsSorted(s[0], rest);
    }
  }

  /** A head that no later element sorts before keeps a sorted list sorted. */
  lemma ConsSorted(h: MasterContact, s: seq<MasterContact>)
    requires Sorted(s) && forall y :: y in s ==> !SortsBefore(y, h)
    ensures Sorted([h] + s)
  {
    var r := [h] + s;
    forall i, j | 0 <= i < j < |r|
      ensures !SortsBefore(r[j], r[i])
    {
      assert r[j] == s[j - 1] && r[j] in s;
      if i > 0 {
        assert r[i] == s[i - 1];
      }
    }
  }

  /** Sorting yields a sorted permutation of its input. */
  lemma {:induction false} SortByRelevanceSorted(s: seq<MasterContact>)
    ensures Sorted(SortByRelevance(s))
    ensures multiset(SortByRelevance(s)) == multiset(s)
  {
    if |s| > 0 {
      SortByRelevanceSorted(s[1..]);
      InsertSorted(s[0], SortByRelevance(s[1..]));
      assert s == [s[0]] + s[1..];
    }
  }

  /** Inserting `x` into a sorted list puts it first among its ties. */
  lemma {:induction false} InsertTies(x: MasterContact, s: seq<MasterContact>, y: MasterContact)
    ensures Ties(Insert(x, s), y) == if SameSortKey(x, y) then [x] + Ties(s, y) else Ties(s, y)
  {
    if |s| > 0 {
      if !SortsBefore(s[0], x) {
        assert ([x] + s)[1..] == s;
      } else {
        InsertTies(x, s[1..], y);
        var r := [s[0]] + Insert(x, s[1..]);
        assert r[1..] == Insert(x, s[1..]);
        if SameSortKey(x, y) && SameSortKey(s[0], y) {
          LexLessIrreflexive(x.name);
          assert false;
        }
      }
    }
  }

  /** Stability: for every key, the contacts with that key come out in the
      order they went in. */
  lemma {:induction false} SortByRelevanceStable(s: seq<MasterContact>, y: MasterContact)
    ensures Ties(SortByRelevance(s), y) == Ties(s, y)
  {
    if |s| > 0 {
      SortByRelevanceStable(s[1..], y);
      InsertTies(s[0], SortByRelevance(s[1..]), y);
    }
  }

  /** The consolidated master list: duplicates removed, then sorted. */
  function Consolidate(contacts: seq<MasterContact>): (r: seq<MasterContact>)
    ensures |r| <= |contacts|
    ensures Sorted(r)
    ensures DistinctKeys(r, DuplicateKey)
    ensures Keys(r, DuplicateKey) == Keys(contacts, DuplicateKey)
    ensures forall c :: c in r ==> c in contacts
  {
    var unique := RemoveDuplicates(contacts);
    SortByRelevanceSorted(unique);
    KeysOfRearrangement(SortByRelevance(unique), unique, DuplicateKey);
    PermutationKeepsDistinctKeys(unique, SortByRelevance(unique), DuplicateKey);
    SortByRelevance(unique)
  }
}
