/** `_clean_and_deduplicate` of scripts/strategic-contact-scoring.py: the
    consolidated rows get a `name|organisation` key, a completeness count and,
    after sorting by completeness and dropping repeated keys, consecutive
    contact ids. */
module ContactTable {
  import opened Strings
  import opened Scoring
  import opened KeyedDedup

  /** `f"{full_name.lower()}|{organization.lower()}"` on a filled row. */
  function NameOrgKey(row: Row): string {
    Lower(Field(row, "full_name")) + "|" + Lower(Field(row, "organization"))
  }

  /** The columns of the frame after the key column is added: every column of
      every input row, plus the name, organisation and key columns. */
  function Columns(rows: seq<Row>): set<string> {
    (set i, k | 0 <= i < |rows| && k in rows[i] :: k) + {"full_name", "organization", "name_org_key"}
  }

  /** A row of the cleaned frame. */
  datatype CleanContact = CleanContact(row: Row, nameOrgKey: string, completeness: nat, contactId: nat)

  function KeyOf(c: CleanContact): string {
    c.nameOrgKey
  }

  /** The input rows behind cleaned rows. */
  function Rows(cs: seq<CleanContact>): (rows: seq<Row>)
    ensures |rows| == |cs| && forall i :: 0 <= i < |cs| ==> rows[i] == cs[i].row
  {
    seq(|cs|, i requires 0 <= i < |cs| => cs[i].row)
  }

  /** `_clean_and_deduplicate`. After `fillna('')` no cell is missing, so the
      completeness of every row is the number of columns; the sort by
      completeness then compares equal values and its unspecified (quicksort)
      order decides which duplicate survives. That order is the parameter
      `arranged`, any rearrangement of `rows`. */
  function CleanAndDeduplicate(rows: seq<Row>, arranged: seq<Row>): (r: seq<CleanContact>)
    requires multiset(arranged) == multiset(rows)
    ensures |r| <= |rows|
    ensures forall i :: 0 <= i < |r| ==> r[i].contactId == i + 1
    ensures forall i :: 0 <= i < |r| ==> r[i].row in rows && r[i].nameOrgKey == NameOrgKey(r[i].row)
    ensures forall i, j :: 0 <= i < j < |r| ==> r[i].nameOrgKey != r[j].nameOrgKey
    ensures Keys(r, KeyOf) == Keys(rows, NameOrgKey)
    ensures forall i :: 0 <= i < |r| ==> r[i].completeness == |Columns(rows)|
  {
    var kept := KeepFirstBy(arranged, NameOrgKey);
    KeysOfRearrangement(arranged, rows, NameOrgKey);
    assert forall y :: y in arranged ==> y in rows by {
      forall y | y in arranged
        ensures y in rows
      {
        assert y in multiset(rows);
      }
    }
    var r := seq(|kept|, i requires 0 <= i < |kept| => CleanContact(kept[i], NameOrgKey(kept[i]), |Columns(rows)|, i + 1));
    SameKeys(r, kept);
    r
  }

  lemma SameKeys(r: seq<CleanContact>, kept: seq<Row>)
    requires |r| == |kept| && forall i :: 0 <= i < |r| ==> r[i].nameOrgKey == NameOrgKey(kept[i])
    ensures Keys(r, KeyOf) == Keys(kept, NameOrgKey)
  {
    forall k | k in Keys(r, KeyOf)
      ensures k in Keys(kept, NameOrgKey)
    {
      var i :| 0 <= i < |r| && KeyOf(r[i]) == k;
      assert NameOrgKey(kept[i]) == k;
    }
    forall k | k in Keys(kept, NameOrgKey)
      ensures k in Keys(r, KeyOf)
    {
      var i :| 0 <= i < |kept| && NameOrgKey(kept[i]) == k;
      assert KeyOf(r[i]) == k;
    }
  }

  /** Every row whose key is first in the chosen order is kept. */
  lemma FirstArrangedRowKept(rows: seq<Row>, arranged: seq<Row>, i: int)
    requires multiset(arranged) == multiset(rows)
    requires 0 <= i < |arranged| && FirstOfKey(arranged, NameOrgKey, i)
    ensures arranged[i] in Rows(CleanAndDeduplicate(rows, arranged))
  {
    FirstOfKeyKept(arranged, NameOrgKey, i);
    var kept := KeepFirstBy(arranged, NameOrgKey);
    var j :| 0 <= j < |kept| && kept[j] == arranged[i];
    assert Rows(CleanAndDeduplicate(rows, arranged))[j] == kept[j];
  }

  /** Cleaning a clean table again, in its own order, gives back the same
      rows under the same contact ids. */
  lemma CleanTwiceIsClean(rows: seq<Row>, arranged: seq<Row>)
    requires multiset(arranged) == multiset(rows)
    ensures var once := CleanAndDeduplicate(rows, arranged);
            var twice := CleanAndDeduplicate(Rows(once), Rows(once));
            Rows(twice) == Rows(once) && forall i :: 0 <= i < |twice| ==> twice[i].contactId == once[i].contactId
  {
    var once := CleanAndDeduplicate(rows, arranged);
    var xs := Rows(once);
    assert DistinctKeys(xs, NameOrgKey);
    KeepFirstFromDistinct(xs, NameOrgKey, {});
  }
}
