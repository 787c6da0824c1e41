/** tools/development/check_notion_relations.py: which properties of a
    Notion database schema are relations, which database each one points
    at, and which expected relations are missing. Fetching a schema is a
    parameter: the properties returned, or nothing when the request failed. */
module NotionRelations {
  import opened Wrappers

  /** One schema property: its name, its "type" (absent when the schema has
      none), and the string fields of its "relation" object. */
  datatype Property = Property(name: string, kind: Option<string>, relation: map<string, string>)

  /** An entry of `analyze_relations`' result. */
  datatype Relation = Relation(
    name: string,
    databaseId: Option<string>,
    syncedName: Option<string>,
    syncedId: Option<string>,
    isTwoWay: bool)

  /** `dict.get(key)`: None when absent. */
  function Get(m: map<string, string>, key: string): Option<string> {
    if key in m then Some(m[key]) else None
  }

  predicate IsRelation(p: Property) {
    p.kind == Some("relation")
  }

  /** The entry for one relation property; two-way exactly when the synced name is non-empty. */
  function RelationOf(p: Property): (r: Relation)
    ensures r.name == p.name
    ensures r.isTwoWay <==> "synced_property_name" in p.relation && p.relation["synced_property_name"] != ""
    ensures r.databaseId.None? <==> "database_id" !in p.relation
  {
    var synced := Get(p.relation, "synced_property_name");
    Relation(p.name, Get(p.relation, "database_id"), synced,
             Get(p.relation, "synced_property_id"), synced.Some? && synced.value != "")
  }

  /** `analyze_relations`; None where `prop_data['type']` raises KeyError. */
  function AnalyzeRelations(props: seq<Property>): (r: Option<seq<Relation>>)
    ensures r.Some? <==> forall i :: 0 <= i < |props| ==> props[i].kind.Some?
    ensures r.Some? ==> |r.value| <= |props|
  {
    if |props| == 0 then Some([])
    else if props[0].kind.None? then None
    else
      match AnalyzeRelations(props[1..])
      case None => None
      case Some(rest) =>
        if IsRelation(props[0]) then Some([RelationOf(props[0])] + rest) else Some(rest)
  }

  /** The entries are exactly those of the relation properties. */
  lemma {:induction false} AnalyzedEntries(props: seq<Property>)
    requires AnalyzeRelations(props).Some?
    ensures forall x :: x in AnalyzeRelations(props).value ==>
      exists p :: p in props && IsRelation(p) && x == RelationOf(p)
    ensures forall p :: p in props && IsRelation(p) ==> RelationOf(p) in AnalyzeRelations(props).value
  {
    if |props| > 0 {
      AnalyzedEntries(props[1..]);
      assert forall p :: p in props[1..] ==> p in props;
      assert forall p :: p in props ==> p == props[0] || p in props[1..];
    }
  }

  /** The entries keep the properties' order: analysing two runs of
      properties is analysing each and concatenating. */
  lemma {:induction false} AnalyzeConcat(a: seq<Property>, b: seq<Property>)
    requires AnalyzeRelations(a).Some? && AnalyzeRelations(b).Some?
    ensures AnalyzeRelations(a + b) == Some(AnalyzeRelations(a).value + AnalyzeRelations(b).value)
  {
    if |a| > 0 {
      assert (a + b)[1..] == a[1..] + b;
      assert (a + b)[0] == a[0];
      AnalyzeConcat(a[1..], b);
      var ra, rb := AnalyzeRelations(a[1..]).value, AnalyzeRelations(b).value;
      assert AnalyzeRelations((a + b)[1..]) == Some(ra + rb);
      if IsRelation(a[0]) {
        assert AnalyzeRelations(a).value == [RelationOf(a[0])] + ra;
        assert [RelationOf(a[0])] + (ra + rb) == ([RelationOf(a[0])] + ra) + rb;
        assert AnalyzeRelations(a + b) == Some([RelationOf(a[0])] + (ra + rb));
      } else {
        assert AnalyzeRelations(a + b) == Some(ra + rb);
        assert AnalyzeRelations(a).value == ra;
      }
    } else {
      assert a + b == b;
      assert AnalyzeRelations(a).value == [];
      assert AnalyzeRelations(a + b) == AnalyzeRelations(b);
      assert AnalyzeRelations(a).value + AnalyzeRelations(b).value == AnalyzeRelations(b).value;
    }
  }

  /** A schema without relation properties has no entries. */
  lemma {:induction false} NoRelationProperties(props: seq<Property>)
    requires forall i :: 0 <= i < |props| ==> props[i].kind.Some? && !IsRelation(props[i])
    ensures AnalyzeRelations(props) == Some([])
  {
    if |props| > 0 {
      NoRelationProperties(props[1..]);
    }
  }

  // ---------------------------------------------------------------------------
  // The summary in main
  // ---------------------------------------------------------------------------

  /** `DATABASES`: name and id, in declaration order. */
  const Databases: seq<(string, string)> := [
    ("Projects", "177ebcf9-81cf-80dd-9514-f1ec32f3314c"),
    ("People", "47bdc1c4-df99-4ddc-81c4-a0214c919d69"),
    ("Organisations", "948f3946-7d1c-42f2-bd7e-1317a755e67b"),
    ("Opportunities", "234ebcf9-81cf-804e-873f-f352f03c36da"),
    ("Artefacts", "234ebcf9-81cf-8015-878d-eadb337662e4")]

  /** `{v: k for k, v in dbs}`: a later name wins for a repeated id. */
  function NamesById(dbs: seq<(string, string)>): (m: map<string, string>)
    ensures forall id :: id in m <==> exists i :: 0 <= i < |dbs| && dbs[i].1 == id
    ensures forall i :: 0 <= i < |dbs| && (forall j :: i < j < |dbs| ==> dbs[j].1 != dbs[i].1) ==> m[dbs[i].1] == dbs[i].0
  {
    if |dbs| == 0 then map[]
    else
      var init := dbs[..|dbs| - 1];
      var last := dbs[|dbs| - 1];
      var m := NamesById(init)[last.1 := last.0];
      assert forall i :: 0 <= i < |init| ==> init[i] == dbs[i];
      m
  }

  /** The ids of `Databases` are distinct, so inverting it loses no name. */
  lemma DatabaseIdsInvert(i: int)
    requires 0 <= i < |Databases|
    ensures NamesById(Databases)[Databases[i].1] == Databases[i].0
  {
    assert forall j, k :: 0 <= j < k < |Databases| ==> Databases[j].1 != Databases[k].1;
  }

  /** No database of `DATABASES` is called "Unknown". */
  lemma DatabaseNamesKnown(j: int)
    requires 0 <= j < |Databases|
    ensures Databases[j].0 != "Unknown"
  {
  }

  /** `database_names_by_id.get(related_db_id, 'Unknown')` */
  function RelatedName(names: map<string, string>, id: Option<string>): (r: string)
    ensures id.Some? && id.value in names ==> r == names[id.value]
    ensures (id.None? || id.value !in names) ==> r == "Unknown"
  {
    match id
    case Some(x) => if x in names then names[x] else "Unknown"
    case None => "Unknown"
  }

  /** The names of the databases the relations resolve to, "Unknown" ones dropped. */
  function ActualNames(relations: seq<Relation>, names: map<string, string>): (r: seq<string>)
    ensures forall x :: x in r ==> x != "Unknown"
    ensures forall x :: x in r <==> x != "Unknown" && exists rel :: rel in relations && RelatedName(names, rel.databaseId) == x
  {
    if |relations| == 0 then []
    else
      var rest := ActualNames(relations[1..], names);
      assert forall rel :: rel in relations <==> rel == relations[0] || rel in relations[1..];
      var n := RelatedName(names, relations[0].databaseId);
      if n != "Unknown" then [n] + rest else rest
  }

  /** `set(expected) - set(actual_db_names)` */
  function Missing(expected: seq<string>, actual: seq<string>): (r: set<string>)
    ensures forall x :: x in r <==> x in expected && x !in actual
  {
    set x | x in expected && x !in actual
  }

  /** What the summary reports missing for one database, given the inverted
      `DATABASES` table: every expected name that no relation of the database
      resolves to. A database whose schema could not be fetched has no
      relations, so everything expected is missing. */
  function MissingFor(expected: seq<string>, analysed: Option<seq<Relation>>, names: map<string, string>): (r: set<string>)
    ensures analysed.None? ==> forall x :: x in r <==> x in expected
    ensures analysed.Some? ==> forall x :: x in r <==>
      (x in expected && (x == "Unknown" || forall rel :: rel in analysed.value ==> RelatedName(names, rel.databaseId) != x))
  {
    var relations := match analysed case Some(rs) => rs case None => [];
    Missing(expected, ActualNames(relations, names))
  }

  /** `expected_relations`, in declaration order. */
  const ExpectedRelations: seq<(string, seq<string>)> := [
    ("Projects", ["People", "Organisations", "Opportunities", "Artefacts"]),
    ("People", ["Projects", "Organisations"]),
    ("Organisations", ["Projects", "People", "Opportunities"]),
    ("Opportunities", ["Projects", "Organisations", "People"]),
    ("Artefacts", ["Projects"])]

  /** A relation pointing at a known database id covers that database's name. */
  lemma RelationCovers(expected: seq<string>, relations: seq<Relation>, names: map<string, string>, i: int)
    requires 0 <= i < |relations|
    requires relations[i].databaseId.Some? && relations[i].databaseId.value in names
    requires names[relations[i].databaseId.value] != "Unknown"
    ensures names[relations[i].databaseId.value] !in MissingFor(expected, Some(relations), names)
  {
    assert relations[i] in relations;
  }

  /** The same for the databases of `DATABASES`, whose inverted table maps each id back to its name. */
  lemma RelationCoversDatabase(expected: seq<string>, relations: seq<Relation>, i: int, j: int)
    requires 0 <= i < |relations| && 0 <= j < |Databases|
    requires relations[i].databaseId == Some(Databases[j].1)
    ensures Databases[j].0 !in MissingFor(expected, Some(relations), NamesById(Databases))
  {
    DatabaseIdsInvert(j);
    DatabaseNamesKnown(j);
    RelationCovers(expected, relations, NamesById(Databases), i);
  }
}
