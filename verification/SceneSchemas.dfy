/** Merging the scene schema tables: fixed overrides first, then the streaming table, then the ttt table. */
module SceneSchemas {

  // The 15 columns of SCENE_COLUMNS.
  type Row = r: seq<int> | |r| == 15 witness seq(15, _ => 0)

  // What the table is sorted by: scene_id, search_id, template_id.
  datatype Key = Key(scene: int, search: int, template: int)

  function KeyOf(row: Row): Key {
    Key(row[0], row[8], row[3])
  }

  predicate KeyLe(a: Key, b: Key) {
    a.scene < b.scene || (a.scene == b.scene && (a.search < b.search || (a.search == b.search && a.template <= b.template)))
  }

  const FC_SCENE_SCHEMA_OVERRIDES: map<int, seq<Row>> := map[
    203 := [[203, 960, 540, 1, 24, 404, 94, 476, 1, 22, 402, 96, 478, 90, 3],
            [203, 960, 540, 2, 70, 448, 92, 472, 1, 66, 444, 96, 476, 90, 3]],
    126 := [[126, 960, 540, 1, 49, 52, 62, 65, 1, 45, 48, 66, 69, 90, 3]]]
  // sorted(FC_SCENE_SCHEMA_OVERRIDES)
  const OVERRIDDEN: seq<int> := [126, 203]

  function Filter(keep: Row -> bool, rows: seq<Row>): seq<Row> {
    if rows == [] then [] else (if keep(rows[0]) then [rows[0]] else []) + Filter(keep, rows[1..])
  }

  function HasKey(key: Key): Row -> bool {
    (row: Row) => KeyOf(row) == key
  }

  function InScene(scene: int): Row -> bool {
    (row: Row) => row[0] == scene
  }

  function Outside(ids: set<int>): Row -> bool {
    (row: Row) => row[0] !in ids
  }

  function WithKey(rows: seq<Row>, key: Key): seq<Row> {
    Filter(HasKey(key), rows)
  }

  function OfScene(rows: seq<Row>, scene: int): seq<Row> {
    Filter(InScene(scene), rows)
  }

  predicate Sorted(rows: seq<Row>) {
    forall i, j | 0 <= i < j < |rows| :: KeyLe(KeyOf(rows[i]), KeyOf(rows[j]))
  }

  /** The rows sorted, those with the same key in their old order. */
  ghost predicate IsStableSort(rows: seq<Row>, result: seq<Row>) {
    Sorted(result) && forall key :: WithKey(result, key) == WithKey(rows, key)
  }

  function Insert(row: Row, rows: seq<Row>): seq<Row> {
    if rows == [] || KeyLe(KeyOf(row), KeyOf(rows[0])) then [row] + rows else [rows[0]] + Insert(row, rows[1..])
  }

  /** list.sort with the key above. */
  function StableSort(rows: seq<Row>): seq<Row> {
    if rows == [] then [] else Insert(rows[0], StableSort(rows[1..]))
  }

  /** _apply_fc_schema_overrides. */
  method ApplyFcSchemaOverrides(schemas: seq<Row>) returns (result: seq<Row>)
    ensures result == Overridden(schemas)
  {
    var filtered := Filter(Outside(FC_SCENE_SCHEMA_OVERRIDES.Keys), schemas);
    for i := 0 to |OVERRIDDEN|
      invariant filtered == Filter(Outside(FC_SCENE_SCHEMA_OVERRIDES.Keys), schemas) + OverrideRows(OVERRIDDEN[..i])
    {
      filtered := filtered + FC_SCENE_SCHEMA_OVERRIDES[OVERRIDDEN[i]];
      assert OVERRIDDEN[..i + 1][..i] == OVERRIDDEN[..i];
    }
    assert OVERRIDDEN[..|OVERRIDDEN|] == OVERRIDDEN;
    result := StableSort(filtered);
  }

  /** _merge_streaming_and_ttt_schemas. */
  method MergeStreamingAndTttSchemas(streaming: seq<Row>, ttt: seq<Row>) returns (merged: seq<Row>)
    ensures merged == Merged(streaming, ttt)
  {
    var streamingIds := set row | row in streaming :: row[0];
    var extensionRows := Filter(Outside(streamingIds), ttt);
    merged := streaming + extensionRows;
    merged := StableSort(merged);
  }

  function OverrideRows(ids: seq<int>): seq<Row>
    requires forall i | 0 <= i < |ids| :: ids[i] in FC_SCENE_SCHEMA_OVERRIDES
  {
    if ids == [] then [] else OverrideRows(ids[..|ids| - 1]) + FC_SCENE_SCHEMA_OVERRIDES[ids[|ids| - 1]]
  }

  function Overridden(schemas: seq<Row>): seq<Row> {
    StableSort(Filter(Outside(FC_SCENE_SCHEMA_OVERRIDES.Keys), schemas) + OverrideRows(OVERRIDDEN))
  }

  function Ids(rows: seq<Row>): set<int> {
    set row | row in rows :: row[0]
  }

  function Merged(streaming: seq<Row>, ttt: seq<Row>): seq<Row> {
    StableSort(streaming + Filter(Outside(Ids(streaming)), ttt))
  }

  /** What main() writes. */
  function Synced(streaming: seq<Row>, ttt: seq<Row>): seq<Row> {
    Merged(Overridden(streaming), ttt)
  }

  // ---------- stable sorting ----------

  lemma {:induction false} FilterConcat(keep: Row -> bool, a: seq<Row>, b: seq<Row>)
    ensures Filter(keep, a + b) == Filter(keep, a) + Filter(keep, b)
  {
    if a == [] {
      assert a + b == b;
    } else {
      assert (a + b)[1..] == a[1..] + b;
      FilterConcat(keep, a[1..], b);
    }
  }

  /** A filter that treats all rows with one key alike keeps them all or none. */
  lemma {:induction false} KeyOfFilter(keep: Row -> bool, rows: seq<Row>, key: Key, kept: bool)
    requires forall row | KeyOf(row) == key :: keep(row) == kept
    ensures WithKey(Filter(keep, rows), key) == if kept then WithKey(rows, key) else []
  {
    if rows != [] {
      KeyOfFilter(keep, rows[1..], key, kept);
      FilterConcat(HasKey(key), if keep(rows[0]) then [rows[0]] else [], Filter(keep, rows[1..]));
    }
  }

  lemma WithKeyCons(row: Row, rest: seq<Row>, key: Key)
    ensures WithKey([row] + rest, key) == (if KeyOf(row) == key then [row] else []) + WithKey(rest, key)
  {
    assert ([row] + rest)[1..] == rest;
  }

  lemma {:induction false} InsertKeepsRows(row: Row, rows: seq<Row>)
    ensures multiset(Insert(row, rows)) == multiset{row} + multiset(rows)
  {
    if rows != [] && !KeyLe(KeyOf(row), KeyOf(rows[0])) {
      InsertKeepsRows(row, rows[1..]);
      assert rows == [rows[0]] + rows[1..];
    }
  }

  lemma {:induction false} InsertSorts(row: Row, rows: seq<Row>)
    requires Sorted(rows)
    ensures Sorted(Insert(row, rows))
    ensures forall r | r in Insert(row, rows) :: r == row || r in rows
  {
    if rows != [] && !KeyLe(KeyOf(row), KeyOf(rows[0])) {
      InsertSorts(row, rows[1..]);
      var rest := Insert(row, rows[1..]);
      forall k | 0 <= k < |rest|
        ensures KeyLe(KeyOf(rows[0]), KeyOf(rest[k]))
      {
        assert rest[k] in rest;
      }
    }
  }

  /** The new row goes before the rows with its own key, and past rows with other keys only. */
  lemma {:induction false} InsertKeepsKeys(row: Row, rows: seq<Row>, key: Key)
    ensures WithKey(Insert(row, rows), key) == WithKey([row] + rows, key)
  {
    if rows != [] && !KeyLe(KeyOf(row), KeyOf(rows[0])) {
      var tail := rows[1..];
      assert rows == [rows[0]] + tail;
      InsertKeepsKeys(row, tail, key);
      WithKeyCons(rows[0], Insert(row, tail), key);
      WithKeyCons(row, tail, key);
      WithKeyCons(rows[0], tail, key);
      WithKeyCons(row, rows, key);
    }
  }

  lemma {:induction false} StableSortSorts(rows: seq<Row>)
    ensures Sorted(StableSort(rows)) && multiset(StableSort(rows)) == multiset(rows)
  {
    if rows != [] {
      StableSortSorts(rows[1..]);
      InsertSorts(rows[0], StableSort(rows[1..]));
      InsertKeepsRows(rows[0], StableSort(rows[1..]));
      assert rows == [rows[0]] + rows[1..];
    }
  }

  lemma {:induction false} StableSortKeepsKeys(rows: seq<Row>, key: Key)
    ensures WithKey(StableSort(rows), key) == WithKey(rows, key)
  {
    if rows != [] {
      var rest := StableSort(rows[1..]);
      StableSortKeepsKeys(rows[1..], key);
      InsertKeepsKeys(rows[0], rest, key);
      WithKeyCons(rows[0], rest, key);
      WithKeyCons(rows[0], rows[1..], key);
      assert rows == [rows[0]] + rows[1..];
    }
  }

  /** A sorted list is determined by its rows key by key, so a stable sort has only one possible result. */
  lemma {:induction false} SortedIsDetermined(a: seq<Row>, b: seq<Row>)
    requires Sorted(a) && Sorted(b)
    requires forall key :: WithKey(a, key) == WithKey(b, key)
    ensures a == b
    decreases |a|
  {
    FirstHasKey(a);
    FirstHasKey(b);
    assert a != [] ==> WithKey(a, KeyOf(a[0])) == WithKey(b, KeyOf(a[0]));
    assert b != [] ==> WithKey(a, KeyOf(b[0])) == WithKey(b, KeyOf(b[0]));
    assert a != [] <==> b != [];
    if a != [] {
      SameFirst(a, b);
      assert a == [a[0]] + a[1..] && b == [b[0]] + b[1..];
      forall key
        ensures WithKey(a[1..], key) == WithKey(b[1..], key)
      {
        assert WithKey(a, key) == WithKey(b, key);
        WithKeyCons(a[0], a[1..], key);
        WithKeyCons(b[0], b[1..], key);
        var first := if KeyOf(a[0]) == key then [a[0]] else [];
        assert (first + WithKey(a[1..], key))[|first|..] == WithKey(a[1..], key);
        assert (first + WithKey(b[1..], key))[|first|..] == WithKey(b[1..], key);
      }
      SortedIsDetermined(a[1..], b[1..]);
    }
  }

  lemma FirstHasKey(rows: seq<Row>)
    ensures rows != [] ==> WithKey(rows, KeyOf(rows[0])) != []
  {
  }

  lemma {:induction false} WithKeyMembers(rows: seq<Row>, key: Key)
    ensures forall row | row in WithKey(rows, key) :: row in rows && KeyOf(row) == key
    ensures WithKey(rows, key) != [] <==> exists row | row in rows :: KeyOf(row) == key
  {
    if rows != [] {
      assert rows == [rows[0]] + rows[1..];
      WithKeyMembers(rows[1..], key);
    }
  }

  lemma SameFirst(a: seq<Row>, b: seq<Row>)
    requires a != [] && b != [] && Sorted(a) && Sorted(b)
    requires forall key :: WithKey(a, key) == WithKey(b, key)
    ensures a[0] == b[0]
  {
    var ka, kb := KeyOf(a[0]), KeyOf(b[0]);
    WithKeyMembers(b, ka);
    WithKeyMembers(a, kb);
    assert WithKey(b, ka) == WithKey(a, ka);
    assert WithKey(a, kb) == WithKey(b, kb);
    assert KeyLe(ka, kb) && KeyLe(kb, ka);
    assert WithKey(a, ka)[0] == a[0] && WithKey(b, ka)[0] == b[0];
  }

  /** Any stable sort gives this list: the sort inside Python may be any other. */
  lemma StableSortIsTheOne(rows: seq<Row>, result: seq<Row>)
    ensures IsStableSort(rows, result) <==> result == StableSort(rows)
  {
    StableSortSorts(rows);
    forall key
      ensures WithKey(StableSort(rows), key) == WithKey(rows, key)
    {
      StableSortKeepsKeys(rows, key);
    }
    if IsStableSort(rows, result) {
      forall key
        ensures WithKey(result, key) == WithKey(StableSort(rows), key)
      {
        assert WithKey(result, key) == WithKey(rows, key);
      }
      SortedIsDetermined(result, StableSort(rows));
    }
  }

  // ---------- where each scene's rows come from ----------

  /** The one list that gives a scene its rows. */
  function SourceOf(scene: int, streaming: seq<Row>, ttt: seq<Row>): seq<Row> {
    if scene in FC_SCENE_SCHEMA_OVERRIDES then FC_SCENE_SCHEMA_OVERRIDES[scene]
    else if scene in Ids(streaming) then streaming
    else ttt
  }

  lemma OverridesAre()
    ensures FC_SCENE_SCHEMA_OVERRIDES.Keys == {126, 203}
    ensures OverrideRows(OVERRIDDEN) == FC_SCENE_SCHEMA_OVERRIDES[126] + FC_SCENE_SCHEMA_OVERRIDES[203]
    ensures forall scene | scene in FC_SCENE_SCHEMA_OVERRIDES ::
      forall row | row in FC_SCENE_SCHEMA_OVERRIDES[scene] :: KeyOf(row).scene == scene
  {
    assert OVERRIDDEN[..1] == [126] && [126][..0] == [];
    assert OverrideRows([126]) == [] + FC_SCENE_SCHEMA_OVERRIDES[126];
  }

  lemma OverrideKeys(key: Key)
    ensures WithKey(OverrideRows(OVERRIDDEN), key) ==
      if key.scene in FC_SCENE_SCHEMA_OVERRIDES then WithKey(FC_SCENE_SCHEMA_OVERRIDES[key.scene], key) else []
  {
    OverridesAre();
    hide FC_SCENE_SCHEMA_OVERRIDES, OVERRIDDEN, OverrideRows, Filter, KeyOf;
    var low, high := FC_SCENE_SCHEMA_OVERRIDES[126], FC_SCENE_SCHEMA_OVERRIDES[203];
    FilterConcat(HasKey(key), low, high);
    WithKeyMembers(low, key);
    WithKeyMembers(high, key);
  }

  /** Keeping the scenes outside some set keeps all the rows of a key or none. */
  lemma OutsideKeys(ids: set<int>, rows: seq<Row>, key: Key)
    ensures WithKey(Filter(Outside(ids), rows), key) == if key.scene in ids then [] else WithKey(rows, key)
  {
    KeyOfFilter(Outside(ids), rows, key, key.scene !in ids);
    hide Filter;
  }

  lemma OverriddenKeys(schemas: seq<Row>, key: Key)
    ensures WithKey(Overridden(schemas), key) ==
      if key.scene in FC_SCENE_SCHEMA_OVERRIDES then WithKey(FC_SCENE_SCHEMA_OVERRIDES[key.scene], key) else WithKey(schemas, key)
  {
    hide OverrideRows, Filter, StableSort, Outside, HasKey;
    var kept := Filter(Outside(FC_SCENE_SCHEMA_OVERRIDES.Keys), schemas);
    StableSortKeepsKeys(kept + OverrideRows(OVERRIDDEN), key);
    FilterConcat(HasKey(key), kept, OverrideRows(OVERRIDDEN));
    OutsideKeys(FC_SCENE_SCHEMA_OVERRIDES.Keys, schemas, key);
    OverrideKeys(key);
  }

  lemma MergedKeys(streaming: seq<Row>, ttt: seq<Row>, key: Key)
    ensures WithKey(Merged(streaming, ttt), key) == WithKey(if key.scene in Ids(streaming) then streaming else ttt, key)
  {
    hide Filter, StableSort, Ids, Outside, HasKey;
    var extension := Filter(Outside(Ids(streaming)), ttt);
    StableSortKeepsKeys(streaming + extension, key);
    FilterConcat(HasKey(key), streaming, extension);
    OutsideKeys(Ids(streaming), ttt, key);
    NoKeyOutside(streaming, key);
  }

  lemma NoKeyOutside(rows: seq<Row>, key: Key)
    ensures key.scene !in Ids(rows) ==> WithKey(rows, key) == []
  {
    WithKeyMembers(rows, key);
  }

  /** A scene has rows exactly when some key of that scene does. */
  lemma SceneHasKey(rows: seq<Row>, scene: int)
    ensures scene in Ids(rows) <==> exists key: Key :: key.scene == scene && WithKey(rows, key) != []
  {
    if scene in Ids(rows) {
      var row :| row in rows && row[0] == scene;
      WithKeyMembers(rows, KeyOf(row));
      assert KeyOf(row).scene == scene;
    }
    forall key: Key | key.scene == scene && WithKey(rows, key) != []
      ensures scene in Ids(rows)
    {
      WithKeyMembers(rows, key);
    }
  }

  lemma OverriddenIds(schemas: seq<Row>, scene: int)
    ensures scene in Ids(Overridden(schemas)) <==> scene in FC_SCENE_SCHEMA_OVERRIDES || scene in Ids(schemas)
  {
    SceneHasKey(Overridden(schemas), scene);
    SceneHasKey(schemas, scene);
    forall key: Key
      ensures WithKey(Overridden(schemas), key) ==
        if key.scene in FC_SCENE_SCHEMA_OVERRIDES then WithKey(FC_SCENE_SCHEMA_OVERRIDES[key.scene], key) else WithKey(schemas, key)
    {
      OverriddenKeys(schemas, key);
    }
    if scene in FC_SCENE_SCHEMA_OVERRIDES {
      var rows := FC_SCENE_SCHEMA_OVERRIDES[scene];
      assert rows[0][0] == scene;
      FirstHasKey(rows);
    }
  }

  /** Key by key, the synced list has the rows of the scene's one source, in their old order. */
  lemma SyncedKeys(streaming: seq<Row>, ttt: seq<Row>, key: Key)
    ensures WithKey(Synced(streaming, ttt), key) == WithKey(SourceOf(key.scene, streaming, ttt), key)
  {
    MergedKeys(Overridden(streaming), ttt, key);
    OverriddenIds(streaming, key.scene);
    OverriddenKeys(streaming, key);
  }

  lemma {:induction false} FilterSorted(keep: Row -> bool, rows: seq<Row>)
    requires Sorted(rows)
    ensures Sorted(Filter(keep, rows)) && forall row | row in Filter(keep, rows) :: row in rows
  {
    if rows != [] {
      FilterSorted(keep, rows[1..]);
      var rest := Filter(keep, rows[1..]);
      forall k | 0 <= k < |rest|
        ensures KeyLe(KeyOf(rows[0]), KeyOf(rest[k]))
      {
        assert rest[k] in rest;
      }
    }
  }

  /**
   The synced list is sorted, and each scene's part of it is the sorted form of the rows one source has for the scene:
   the override if there is one, else the streaming table, else the ttt table.
   */
  lemma EachSceneHasOneSource(streaming: seq<Row>, ttt: seq<Row>, scene: int)
    ensures Sorted(Synced(streaming, ttt))
    ensures var source := OfScene(SourceOf(scene, streaming, ttt), scene);
      && OfScene(Synced(streaming, ttt), scene) == StableSort(source)
      && multiset(OfScene(Synced(streaming, ttt), scene)) == multiset(source)
  {
    var synced, source := Synced(streaming, ttt), SourceOf(scene, streaming, ttt);
    StableSortSorts(Overridden(streaming) + Filter(Outside(Ids(Overridden(streaming))), ttt));
    FilterSorted(InScene(scene), synced);
    forall key
      ensures WithKey(OfScene(synced, scene), key) == WithKey(OfScene(source, scene), key)
    {
      KeyOfFilter(InScene(scene), synced, key, key.scene == scene);
      KeyOfFilter(InScene(scene), source, key, key.scene == scene);
      SyncedKeys(streaming, ttt, key);
    }
    StableSortIsTheOne(OfScene(source, scene), OfScene(synced, scene));
    StableSortSorts(OfScene(source, scene));
  }

  /** Syncing again what was synced, with the same ttt table, changes nothing at all. */
  lemma SyncIsIdempotent(streaming: seq<Row>, ttt: seq<Row>)
    ensures Synced(Synced(streaming, ttt), ttt) == Synced(streaming, ttt)
  {
    var once, twice := Synced(streaming, ttt), Synced(Synced(streaming, ttt), ttt);
    EachSceneHasOneSource(streaming, ttt, 0);
    EachSceneHasOneSource(once, ttt, 0);
    forall key
      ensures WithKey(twice, key) == WithKey(once, key)
    {
      SyncedKeys(once, ttt, key);
      SyncedKeys(streaming, ttt, key);
      SceneHasKey(once, key.scene);
      FirstOfSource(streaming, ttt, key);
    }
    SortedIsDetermined(twice, once);
  }

  /** A scene without rows in the synced list has none in the tables either. */
  lemma FirstOfSource(streaming: seq<Row>, ttt: seq<Row>, key: Key)
    ensures key.scene !in FC_SCENE_SCHEMA_OVERRIDES && key.scene !in Ids(Synced(streaming, ttt)) ==>
      WithKey(ttt, key) == [] && WithKey(streaming, key) == []
  {
    SyncedKeys(streaming, ttt, key);
    SceneHasKey(Synced(streaming, ttt), key.scene);
    SceneHasKey(streaming, key.scene);
    SceneHasKey(ttt, key.scene);
    if key.scene in Ids(streaming) {
      var row :| row in streaming && row[0] == key.scene;
      SyncedKeys(streaming, ttt, KeyOf(row));
      WithKeyMembers(streaming, KeyOf(row));
    }
  }

  /**
   main() gives up when the streaming table is empty after the overrides, but it never is: a table from which
   nothing could be read still yields the overridden scenes and everything in the ttt table.
   */
  lemma OverridesHideAnEmptyTable(schemas: seq<Row>)
    ensures Overridden(schemas) != [] && Ids(Overridden([])) == {126, 203}
  {
    OverriddenIds(schemas, 126);
    forall scene
      ensures scene in Ids(Overridden([])) <==> scene in {126, 203}
    {
      OverriddenIds([], scene);
    }
  }

  /** A ttt row is merged whenever neither an override nor the streaming table has its scene, whatever its number. */
  lemma AnyMissingSceneIsMerged(streaming: seq<Row>, ttt: seq<Row>, row: Row)
    requires row in ttt && row[0] !in FC_SCENE_SCHEMA_OVERRIDES && row[0] !in Ids(streaming)
    ensures row in Synced(streaming, ttt)
  {
    EachSceneHasOneSource(streaming, ttt, row[0]);
    FilterMembers(InScene(row[0]), ttt);
    FilterMembers(InScene(row[0]), Synced(streaming, ttt));
    hide Filter, Synced, Ids;
    var part := OfScene(Synced(streaming, ttt), row[0]);
    assert row in OfScene(ttt, row[0]);
    assert row in multiset(OfScene(ttt, row[0]));
    assert row in multiset(part);
    assert row in part;
  }

  /** For instance a row of scene 7, far below 205. */
  lemma ALowTttSceneIsMerged(row: Row)
    requires row[0] == 7
    ensures row in Synced([], [row])
  {
    hide Synced;
    AnyMissingSceneIsMerged([], [row], row);
  }

  lemma {:induction false} FilterMembers(keep: Row -> bool, rows: seq<Row>)
    ensures forall row :: row in Filter(keep, rows) <==> row in rows && keep(row)
  {
    if rows != [] { FilterMembers(keep, rows[1..]); }
  }

  // ---------- the same, column by column ----------

  /** Column 0 first, then column 8, then column 3. */
  predicate InColumnOrder(a: Row, b: Row) {
    if a[0] != b[0] then a[0] < b[0] else if a[8] != b[8] then a[8] < b[8] else a[3] <= b[3]
  }

  /** The rows the tables give a scene: the fixed ones for 126 and 203, else the streaming ones, else the ttt ones. */
  ghost function Given(scene: int, streaming: seq<Row>, ttt: seq<Row>): multiset<Row> {
    if scene == 126 then multiset{[126, 960, 540, 1, 49, 52, 62, 65, 1, 45, 48, 66, 69, 90, 3]}
    else if scene == 203 then multiset{
      [203, 960, 540, 1, 24, 404, 94, 476, 1, 22, 402, 96, 478, 90, 3],
      [203, 960, 540, 2, 70, 448, 92, 472, 1, 66, 444, 96, 476, 90, 3]}
    else if exists i | 0 <= i < |streaming| :: streaming[i][0] == scene then multiset(streaming)
    else multiset(ttt)
  }

  lemma {:induction false} FilterCount(keep: Row -> bool, rows: seq<Row>, row: Row)
    requires keep(row)
    ensures multiset(Filter(keep, rows))[row] == multiset(rows)[row]
  {
    if rows != [] {
      FilterCount(keep, rows[1..], row);
      assert rows == [rows[0]] + rows[1..];
      assert Filter(keep, rows) == (if keep(rows[0]) then [rows[0]] else []) + Filter(keep, rows[1..]);
    }
  }

  lemma SourceIsGiven(streaming: seq<Row>, ttt: seq<Row>, scene: int)
    ensures multiset(SourceOf(scene, streaming, ttt)) == Given(scene, streaming, ttt)
  {
    assert scene in Ids(streaming) <==> exists i | 0 <= i < |streaming| :: streaming[i][0] == scene by {
      if scene in Ids(streaming) {
        var row :| row in streaming && row[0] == scene;
      }
    }
    assert FC_SCENE_SCHEMA_OVERRIDES.Keys == {126, 203};
  }

  /** What is written is in column order, and holds every row as often as its scene is given it. */
  lemma SyncedExactly(streaming: seq<Row>, ttt: seq<Row>)
    ensures var synced := Synced(streaming, ttt);
      && (forall i, j | 0 <= i < j < |synced| :: InColumnOrder(synced[i], synced[j]))
      && (forall row: Row :: multiset(synced)[row] == Given(row[0], streaming, ttt)[row])
  {
    var synced := Synced(streaming, ttt);
    EachSceneHasOneSource(streaming, ttt, 0);
    forall row: Row
      ensures multiset(synced)[row] == Given(row[0], streaming, ttt)[row]
    {
      hide Synced;
      EachSceneHasOneSource(streaming, ttt, row[0]);
      FilterCount(InScene(row[0]), synced, row);
      FilterCount(InScene(row[0]), SourceOf(row[0], streaming, ttt), row);
      SourceIsGiven(streaming, ttt, row[0]);
    }
    forall i, j | 0 <= i < j < |synced|
      ensures InColumnOrder(synced[i], synced[j])
    {
      assert KeyLe(KeyOf(synced[i]), KeyOf(synced[j]));
    }
  }

  lemma {:induction false} SameFilter(f: Row -> bool, g: Row -> bool, rows: seq<Row>)
    requires forall row: Row :: f(row) == g(row)
    ensures Filter(f, rows) == Filter(g, rows)
  {
    if rows != [] { SameFilter(f, g, rows[1..]); }
  }

  /** Rows that agree in the three columns stand in the order of the table they come from. */
  lemma EqualRowsKeepTheirOrder(streaming: seq<Row>, ttt: seq<Row>, scene: int, search: int, template: int)
    ensures var alike: Row -> bool := (row: Row) => row[0] == scene && row[8] == search && row[3] == template;
      Filter(alike, Synced(streaming, ttt)) == Filter(alike, SourceOf(scene, streaming, ttt))
  {
    var alike: Row -> bool := (row: Row) => row[0] == scene && row[8] == search && row[3] == template;
    var key := Key(scene, search, template);
    SyncedKeys(streaming, ttt, key);
    SameFilter(alike, HasKey(key), Synced(streaming, ttt));
    SameFilter(alike, HasKey(key), SourceOf(scene, streaming, ttt));
  }
}
