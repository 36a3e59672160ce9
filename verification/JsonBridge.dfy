/** Converting a decoded BSON document into Lua tables and back
    (internal/merge/json_bridge.go). Lua tables are a heap of maps with identity;
    the backing storage of a string is a number. */
module JsonBridge {
  import ResultBudget

  /** A decoded BSON value. Datetimes carry their text. */
  datatype GoValue =
    | Null
    | Bool(flag: bool)
    | Str(text: string)
    | Int(value: int, wide: bool)
    | Double(number: real)
    | DateTime(text: string)
    | Arr(items: seq<GoValue>)
    | Obj(fields: map<string, GoValue>)

  const MinInt32 := -0x8000_0000
  const MaxInt32 := 0x7FFF_FFFF

  /** Narrow integers fit in 32 bits, as decoding guarantees. */
  predicate Decoded(v: GoValue) {
    match v
    case Int(value, wide) => wide || MinInt32 <= value <= MaxInt32
    case Arr(items) => forall i :: 0 <= i < |items| ==> Decoded(items[i])
    case Obj(fields) => forall k :: k in fields ==> Decoded(fields[k])
    case _ => true
  }

  datatype Key = At(index: int) | Named(name: string)

  datatype LuaValue =
    | LNil
    | LBool(flag: bool)
    | LStr(text: string, data: nat)
    | LInt(value: int)
    | LFloat(number: real)
    | LTable(id: nat)

  datatype Meta = ObjectMeta | ArrayMeta | NullMeta | NoMeta

  datatype LuaTable = LuaTable(meta: Meta, entries: map<Key, LuaValue>)

  /** The table that stands for null. */
  const NullTable: nat := 0

  /** The heap and the bridge's side tables. Table and string identities below
      the two counters are in use. */
  datatype Store = Store(
    tables: map<nat, LuaTable>,
    nextTable: nat,
    nextData: nat,
    dateTimes: set<(string, nat)>,
    integerKinds: map<int, nat>,
    integerFields: map<nat, map<Key, bool>>)

  // ---------------------------------------------------------------------
  // What a Lua value stands for
  // ---------------------------------------------------------------------

  /** The value under a key of a table stands for `v`: an integer by the width
      remembered for the field, anything else by itself. Tables nest in order of
      creation. */
  ghost predicate FieldHolds(s: Store, id: nat, key: Key, lua: LuaValue, v: GoValue)
    decreases v, 1
  {
    if v.Int? then lua == LInt(v.value) && id in s.integerFields && key in s.integerFields[id]
        && s.integerFields[id][key] == v.wide
    else Holds(s, lua, v) && (lua.LTable? && lua.id != NullTable ==> lua.id > id)
  }

  ghost predicate Holds(s: Store, lua: LuaValue, v: GoValue)
    decreases v, 0
  {
    match v
    case Null => lua == LTable(NullTable)
    case Bool(flag) => lua == LBool(flag)
    case Str(text) => lua.LStr? && lua.text == text && lua.data < s.nextData && (text, lua.data) !in s.dateTimes
    case DateTime(text) => lua.LStr? && lua.text == text && lua.data < s.nextData && (text, lua.data) in s.dateTimes
    case Int(_, _) => false
    case Double(number) => lua == LFloat(number)
    case Arr(items) =>
      && IsTable(s, lua, ArrayMeta)
      && (forall key :: key in s.tables[lua.id].entries <==> key.At? && 1 <= key.index <= |items|)
      && (forall i :: 0 <= i < |items| ==>
          FieldHolds(s, lua.id, At(i + 1), s.tables[lua.id].entries[At(i + 1)], items[i]))
    case Obj(fields) =>
      && IsTable(s, lua, ObjectMeta)
      && (forall key :: key in s.tables[lua.id].entries <==> key.Named? && key.name in fields)
      && (forall k :: k in fields ==> FieldHolds(s, lua.id, Named(k), s.tables[lua.id].entries[Named(k)], fields[k]))
  }

  ghost predicate IsTable(s: Store, lua: LuaValue, meta: Meta) {
    lua.LTable? && lua.id != NullTable && lua.id < s.nextTable && lua.id in s.tables && s.tables[lua.id].meta == meta
  }

  /** `t` comes after `s` and keeps the tables from `low` on. */
  ghost predicate Keeps(s: Store, t: Store, low: nat) {
    && s.nextTable <= t.nextTable && s.nextData <= t.nextData
    && (forall id :: low <= id < s.nextTable && id in s.tables ==> id in t.tables && t.tables[id] == s.tables[id])
    && (forall id :: low <= id < s.nextTable && id in s.integerFields ==>
        id in t.integerFields && t.integerFields[id] == s.integerFields[id])
    && s.dateTimes <= t.dateTimes
    && (forall text, data :: (text, data) in t.dateTimes && data < s.nextData ==> (text, data) in s.dateTimes)
  }

  /** What a value stands for does not change when older tables do. */
  lemma {:induction false} HoldsKept(s: Store, t: Store, lua: LuaValue, v: GoValue, low: nat)
    requires Keeps(s, t, low) && Holds(s, lua, v) && (lua.LTable? && lua.id != NullTable ==> lua.id >= low)
    ensures Holds(t, lua, v)
    decreases v, 0
  {
    match v {
      case Arr(items) =>
        forall i | 0 <= i < |items| ensures FieldHolds(t, lua.id, At(i + 1), t.tables[lua.id].entries[At(i + 1)],
                                                       items[i]) {
          FieldKept(s, t, lua.id, At(i + 1), s.tables[lua.id].entries[At(i + 1)], items[i], low);
        }
      case Obj(fields) =>
        forall k | k in fields ensures FieldHolds(t, lua.id, Named(k), t.tables[lua.id].entries[Named(k)], fields[k]) {
          FieldKept(s, t, lua.id, Named(k), s.tables[lua.id].entries[Named(k)], fields[k], low);
        }
      case _ =>
    }
  }

  lemma {:induction false} FieldKept(s: Store, t: Store, id: nat, key: Key, lua: LuaValue, v: GoValue, low: nat)
    requires Keeps(s, t, low) && FieldHolds(s, id, key, lua, v) && low <= id < s.nextTable
    ensures FieldHolds(t, id, key, lua, v)
    decreases v, 1
  {
    if !v.Int? {
      HoldsKept(s, t, lua, v, low);
    }
  }

  // ---------------------------------------------------------------------
  // Writing one field
  // ---------------------------------------------------------------------

  /** Sets a field and remembers the width of an integer. */
  function Put(s: Store, id: nat, key: Key, lua: LuaValue, v: GoValue): Store
    requires id in s.tables
  {
    var table := s.tables[id];
    var fields := if id in s.integerFields then s.integerFields[id] else map[];
    s.(tables := s.tables[id := table.(entries := table.entries[key := lua])],
       integerFields := if v.Int? then s.integerFields[id := fields[key := v.wide]] else s.integerFields)
  }

  /** A Lua value just made for `v`, to be stored in table `id`. */
  ghost predicate Fresh(s: Store, id: nat, lua: LuaValue, v: GoValue) {
    if v.Int? then lua == LInt(v.value) else Holds(s, lua, v) && (lua.LTable? && lua.id != NullTable ==> lua.id > id)
  }

  lemma PutKeeps(s: Store, id: nat, key: Key, lua: LuaValue, v: GoValue)
    requires id in s.tables
    ensures Keeps(s, Put(s, id, key, lua, v), id + 1)
  {
  }

  lemma PutSelf(s: Store, id: nat, key: Key, lua: LuaValue, v: GoValue)
    requires id in s.tables && Fresh(s, id, lua, v)
    ensures FieldHolds(Put(s, id, key, lua, v), id, key, lua, v)
  {
    PutKeeps(s, id, key, lua, v);
    if !v.Int? {
      HoldsKept(s, Put(s, id, key, lua, v), lua, v, id + 1);
    }
  }

  lemma PutOther(s: Store, id: nat, key: Key, lua: LuaValue, v: GoValue, other: Key, it: LuaValue, w: GoValue)
    requires id in s.tables && other != key && FieldHolds(s, id, other, it, w)
    ensures FieldHolds(Put(s, id, key, lua, v), id, other, it, w)
  {
    PutKeeps(s, id, key, lua, v);
    if !w.Int? {
      HoldsKept(s, Put(s, id, key, lua, v), it, w, id + 1);
    }
  }

  /** Table `id` has exactly the fields `done` so far. */
  ghost predicate Built(s: Store, id: nat, meta: Meta, done: map<Key, GoValue>) {
    && IsTable(s, LTable(id), meta)
    && s.tables[id].entries.Keys == done.Keys
    && (forall key :: key in done ==> FieldHolds(s, id, key, s.tables[id].entries[key], done[key]))
  }

  lemma BuiltKept(s: Store, t: Store, id: nat, meta: Meta, done: map<Key, GoValue>)
    requires Built(s, id, meta, done) && Keeps(s, t, 0)
    ensures Built(t, id, meta, done)
  {
    forall key | key in done ensures FieldHolds(t, id, key, t.tables[id].entries[key], done[key]) {
      FieldKept(s, t, id, key, s.tables[id].entries[key], done[key], 0);
    }
  }

  /** One more field. */
  lemma BuiltNext(s: Store, id: nat, meta: Meta, done: map<Key, GoValue>, key: Key, lua: LuaValue, v: GoValue)
    requires Built(s, id, meta, done) && key !in done && Fresh(s, id, lua, v)
    ensures Built(Put(s, id, key, lua, v), id, meta, done[key := v])
  {
    hide FieldHolds;
    var t := Put(s, id, key, lua, v);
    PutSelf(s, id, key, lua, v);
    forall other | other in done ensures FieldHolds(t, id, other, t.tables[id].entries[other], done[other]) {
      PutOther(s, id, key, lua, v, other, s.tables[id].entries[other], done[other]);
    }
  }

  function Indexed(items: seq<GoValue>, n: nat): (m: map<Key, GoValue>)
    requires n <= |items|
    ensures forall key :: key in m <==> key.At? && 1 <= key.index <= n
    ensures forall i :: 0 <= i < n ==> At(i + 1) in m && m[At(i + 1)] == items[i]
  {
    if n == 0 then map[] else Indexed(items, n - 1)[At(n) := items[n - 1]]
  }

  function NamedFields(fields: map<string, GoValue>, names: set<string>): (m: map<Key, GoValue>)
    requires names <= fields.Keys
    ensures forall key :: key in m <==> key.Named? && key.name in names
    ensures forall k :: k in names ==> Named(k) in m && m[Named(k)] == fields[k]
  {
    map k | k in names :: Named(k) := fields[k]
  }

  lemma BuiltArray(s: Store, id: nat, items: seq<GoValue>)
    requires Built(s, id, ArrayMeta, Indexed(items, |items|))
    ensures Holds(s, LTable(id), Arr(items))
  {
    hide Indexed, FieldHolds;
    var done := Indexed(items, |items|);
    forall key ensures key in s.tables[id].entries <==> key.At? && 1 <= key.index <= |items| {
      assert key in s.tables[id].entries <==> key in done;
    }
    forall i | 0 <= i < |items| ensures FieldHolds(s, id, At(i + 1), s.tables[id].entries[At(i + 1)], items[i]) {
      assert At(i + 1) in done;
    }
  }

  lemma BuiltObject(s: Store, id: nat, fields: map<string, GoValue>)
    requires Built(s, id, ObjectMeta, NamedFields(fields, fields.Keys))
    ensures Holds(s, LTable(id), Obj(fields))
  {
    hide NamedFields, FieldHolds;
    var done := NamedFields(fields, fields.Keys);
    forall key ensures key in s.tables[id].entries <==> key.Named? && key.name in fields {
      assert key in s.tables[id].entries <==> key in done;
    }
    forall k | k in fields ensures FieldHolds(s, id, Named(k), s.tables[id].entries[Named(k)], fields[k]) {
      assert Named(k) in done;
    }
  }

  // ---------------------------------------------------------------------
  // The bridge
  // ---------------------------------------------------------------------

  datatype Problem = TableCycle | VirtualTable | InvalidNull | AmbiguousInteger | NotContiguous | NonStringKey

  datatype Result<T> = Ok(value: T) | Err(problem: Problem)

  // The tables as the budget walk sees them.

  function AsValue(lua: LuaValue): ResultBudget.Value {
    match lua
    case LStr(text, _) => ResultBudget.Text(|text|)
    case LTable(id) => ResultBudget.Table(id)
    case _ => ResultBudget.Scalar
  }

  function AsEntry(key: Key, lua: LuaValue): ResultBudget.Entry {
    ResultBudget.Entry(if key.Named? then ResultBudget.Text(|key.name|) else ResultBudget.Scalar, AsValue(lua))
  }

  ghost predicate SameEntries(es: seq<ResultBudget.Entry>, entries: map<Key, LuaValue>) {
    && (forall key :: key in entries ==> AsEntry(key, entries[key]) in es)
    && (forall e :: e in es ==> exists key :: key in entries && e == AsEntry(key, entries[key]))
  }

  /** The walk's heap lists the entries of every table, in some order. */
  ghost predicate Views(heap: ResultBudget.Heap, s: Store) {
    heap.Keys == s.tables.Keys && forall id :: id in heap ==> SameEntries(heap[id], s.tables[id].entries)
  }

  ghost predicate ItemsSafe(heap: ResultBudget.Heap, active: set<nat>, entries: map<Key, LuaValue>) {
    forall key :: key in entries ==> ResultBudget.Safe(heap, active, AsValue(entries[key]))
  }

  lemma TableItemsSafe(heap: ResultBudget.Heap, s: Store, active: set<nat>, id: nat)
    requires Views(heap, s) && id in s.tables && ResultBudget.Safe(heap, active, ResultBudget.Table(id))
    ensures ItemsSafe(heap, active + {id}, s.tables[id].entries)
  {
    hide ResultBudget.Safe;
    var entries, v := s.tables[id].entries, ResultBudget.Table(id);
    forall key | key in entries ensures ResultBudget.Safe(heap, active + {id}, AsValue(entries[key])) {
      assert AsEntry(key, entries[key]) in ResultBudget.Entries(heap, v);
      ResultBudget.SafeChild(heap, active, v, AsValue(entries[key]));
    }
  }

  class Bridge {
    var tables: map<nat, LuaTable>
    var nextTable: nat
    var nextData: nat
    var dateTimes: set<(string, nat)>
    var integerKinds: map<int, nat>
    var integerFields: map<nat, map<Key, bool>>

    function Now(): Store
      reads this
    {
      Store(tables, nextTable, nextData, dateTimes, integerKinds, integerFields)
    }

    ghost predicate Valid()
      reads this
    {
      && NullTable < nextTable && 0 < nextData
      && (forall id :: id in tables ==> id < nextTable) && (forall id :: id in integerFields ==> id < nextTable)
      && (forall text, data :: (text, data) in dateTimes ==> 0 < data < nextData)
    }

    constructor ()
      ensures Valid() && integerKinds == map[]
    {
      tables, nextTable, nextData := map[NullTable := LuaTable(NullMeta, map[])], 1, 1;
      dateTimes, integerKinds, integerFields := {}, map[], map[];
    }

    /** `goToLua`. */
    method GoToLua(v: GoValue) returns (lua: LuaValue)
      requires Valid()
      modifies this
      ensures Valid() && Keeps(old(Now()), Now(), 0)
      ensures if v.Int? then lua == LInt(v.value) else Holds(Now(), lua, v)
      ensures lua.LTable? && lua.id != NullTable ==> lua.id >= old(nextTable)
      decreases v, 1
    {
      match v {
        case Null => return LTable(NullTable);
        case Bool(flag) => return LBool(flag);
        case Str(text) =>
          // The text keeps its storage, whichever that is.
          assert (text, 0) !in dateTimes;
          var data: nat :| data <= nextData && (text, data) !in dateTimes;
          lua := LStr(text, data);
          nextData := if data == nextData then nextData + 1 else nextData;
        case DateTime(text) =>
          // The text is cloned, so its storage is new.
          lua := LStr(text, nextData);
          dateTimes := dateTimes + {(text, nextData)};
          nextData := nextData + 1;
        case Int(value, wide) =>
          var kind := if value in integerKinds then integerKinds[value] else 0;
          integerKinds := integerKinds[value := WithKind(kind, wide)];
          return LInt(value);
        case Double(number) => return LFloat(number);
        case Arr(items) => lua := ArrayToLua(v);
        case Obj(fields) => lua := ObjectToLua(v);
      }
    }

    method NewTable(meta: Meta) returns (id: nat)
      requires Valid()
      modifies this`tables, this`nextTable
      ensures Valid() && id == old(nextTable) && nextTable == id + 1
          && tables == old(tables)[id := LuaTable(meta, map[])]
    {
      id := nextTable;
      tables := tables[id := LuaTable(meta, map[])];
      nextTable := nextTable + 1;
    }

    /** Stores a field and remembers its integer width. */
    method SetField(id: nat, key: Key, lua: LuaValue, v: GoValue)
      requires Valid() && id in tables
      modifies this`tables, this`integerFields
      ensures Valid() && Now() == Put(old(Now()), id, key, lua, v)
    {
      tables := tables[id := tables[id].(entries := tables[id].entries[key := lua])];
      if v.Int? {
        var fields := if id in integerFields then integerFields[id] else map[];
        integerFields := integerFields[id := fields[key := v.wide]];
      }
    }

    method ArrayToLua(v: GoValue) returns (lua: LuaValue)
      requires Valid() && v.Arr?
      modifies this
      ensures Valid() && Keeps(old(Now()), Now(), 0) && Holds(Now(), lua, v)
      ensures lua.LTable? && lua.id >= old(nextTable)
      decreases v, 0
    {
      hide Holds, FieldHolds, Built, Keeps;
      ghost var start := Now();
      var id := NewTable(ArrayMeta);
      NewKeeps(start, Now(), ArrayMeta);
      for i := 0 to |v.items|
        invariant Valid() && Keeps(start, Now(), 0) && id == start.nextTable
        invariant Built(Now(), id, ArrayMeta, Indexed(v.items, i))
      {
        Append(id, ArrayMeta, At(i + 1), v.items[i], Indexed(v.items, i), start);
      }
      BuiltArray(Now(), id, v.items);
      return LTable(id);
    }

    method ObjectToLua(v: GoValue) returns (lua: LuaValue)
      requires Valid() && v.Obj?
      modifies this
      ensures Valid() && Keeps(old(Now()), Now(), 0) && Holds(Now(), lua, v)
      ensures lua.LTable? && lua.id >= old(nextTable)
      decreases v, 0
    {
      hide Holds, FieldHolds, Built, Keeps;
      ghost var start := Now();
      var id := NewTable(ObjectMeta);
      NewKeeps(start, Now(), ObjectMeta);
      var rest := v.fields.Keys;
      ghost var done: map<Key, GoValue> := map[];
      while rest != {}
        invariant Valid() && Keeps(start, Now(), 0) && id == start.nextTable && rest <= v.fields.Keys
        invariant done == NamedFields(v.fields, v.fields.Keys - rest)
        invariant Built(Now(), id, ObjectMeta, done)
      {
        var k :| k in rest;
        Append(id, ObjectMeta, Named(k), v.fields[k], done, start);
        done := done[Named(k) := v.fields[k]];
        rest := rest - {k};
      }
      assert v.fields.Keys - rest == v.fields.Keys;
      BuiltObject(Now(), id, v.fields);
      return LTable(id);
    }

    /** Converts one element and stores it under its key. */
    method Append(id: nat, ghost meta: Meta, key: Key, item: GoValue, ghost done: map<Key, GoValue>, ghost start: Store)
      requires Valid() && Keeps(start, Now(), 0) && id >= start.nextTable && Built(Now(), id, meta, done)
          && key !in done
      modifies this
      ensures Valid() && Keeps(start, Now(), 0) && Built(Now(), id, meta, done[key := item])
      decreases item, 2
    {
      hide Holds, FieldHolds;
      ghost var before := Now();
      var lua := GoToLua(item);
      BuiltKept(before, Now(), id, meta, done);
      BuiltNext(Now(), id, meta, done, key, lua, item);
      SetField(id, key, lua, item);
    }

    /** `luaToGo` for BSON output: what stands for a decoded value converts back
        to it, and no cycle is met below a value with a finite expansion. */
    method LuaToGo(lua: LuaValue, active: set<nat>, ghost v: GoValue, ghost heap: ResultBudget.Heap)
      returns (r: Result<GoValue>)
      requires Valid()
      ensures Decoded(v) && Holds(Now(), lua, v) && Newer(active, lua) ==> r == Ok(v)
      ensures Views(heap, Now()) && ResultBudget.Safe(heap, active, AsValue(lua)) ==> r != Err(TableCycle)
      decreases |tables.Keys - active|, 0
    {
      hide ResultBudget.Safe;
      match lua {
        case LNil => return Ok(Null);
        case LBool(flag) => return Ok(Bool(flag));
        case LStr(text, data) => return Ok(if (text, data) in dateTimes then DateTime(text) else Str(text));
        case LInt(value) =>
          var kind := if value in integerKinds then integerKinds[value] else 0;
          return if kind == 3 then Err(AmbiguousInteger) else Ok(BsonInteger(value, kind == 2));
        case LFloat(number) => return Ok(Double(number));
        case LTable(id) =>
          if id == NullTable {
            return Ok(Null);
          }
          ResultBudget.SafeUnvisited(heap, active, AsValue(lua));
          if id in active {
            return Err(TableCycle);
          }
          if id !in tables {
            return Err(VirtualTable);
          }
          OneFewer(tables.Keys, active, id);
          if Views(heap, Now()) && ResultBudget.Safe(heap, active, AsValue(lua)) {
            TableItemsSafe(heap, Now(), active, id);
          }
          r := LuaTableToGo(id, active + {id}, v, heap);
      }
    }

    method LuaTableToGo(id: nat, active: set<nat>, ghost v: GoValue, ghost heap: ResultBudget.Heap)
      returns (r: Result<GoValue>)
      requires Valid() && id in tables && id != NullTable
      ensures Decoded(v) && Holds(Now(), LTable(id), v) && (forall a :: a in active ==> a <= id) ==> r == Ok(v)
      ensures Views(heap, Now()) && ItemsSafe(heap, active, tables[id].entries) ==> r != Err(TableCycle)
      decreases |tables.Keys - active|, 3
    {
      var table := tables[id];
      if table.meta == NullMeta {
        return Err(InvalidNull);
      }
      if table.meta == ArrayMeta || (table.meta == NoMeta && table.entries != map[] && AllIndexes(table.entries)) {
        var items := LuaArrayToGo(id, active, if v.Arr? then v.items else [], heap);
        return if items.Ok? then Ok(Arr(items.value)) else Err(items.problem);
      }
      var fields := LuaObjectToGo(id, active, if v.Obj? then v.fields else map[], heap);
      return if fields.Ok? then Ok(Obj(fields.value)) else Err(fields.problem);
    }

    /** `luaFieldToGo`: an integer keeps the width remembered for its field. */
    method LuaFieldToGo(id: nat, key: Key, lua: LuaValue, active: set<nat>, ghost v: GoValue,
                        ghost heap: ResultBudget.Heap)
      returns (r: Result<GoValue>)
      requires Valid()
      ensures Decoded(v) && FieldHolds(Now(), id, key, lua, v) && (forall a :: a in active ==> a <= id) ==> r == Ok(v)
      ensures Views(heap, Now()) && ResultBudget.Safe(heap, active, AsValue(lua)) ==> r != Err(TableCycle)
      decreases |tables.Keys - active|, 1
    {
      if lua.LInt? && id in integerFields && key in integerFields[id] {
        assert FieldHolds(Now(), id, key, lua, v) ==> v.Int? by { IntegerField(Now(), id, key, lua, v); }
        return Ok(BsonInteger(lua.value, integerFields[id][key]));
      }
      r := LuaToGo(lua, active, v, heap);
    }

    method LuaArrayToGo(id: nat, active: set<nat>, ghost items: seq<GoValue>, ghost heap: ResultBudget.Heap)
      returns (r: Result<seq<GoValue>>)
      requires Valid() && id in tables && id != NullTable
      ensures Decoded(Arr(items)) && Holds(Now(), LTable(id), Arr(items)) && (forall a :: a in active ==> a <= id)
              ==> r == Ok(items)
      ensures Views(heap, Now()) && ItemsSafe(heap, active, tables[id].entries) ==> r != Err(TableCycle)
      decreases |tables.Keys - active|, 2
    {
      ghost var good := Decoded(Arr(items)) && Holds(Now(), LTable(id), Arr(items))
          && (forall a :: a in active ==> a <= id);
      var entries := tables[id].entries;
      var count := |entries|;
      if good {
        CountIndexes(entries, |items|);
      }
      if !AllIndexes(entries) || (exists i :: 1 <= i <= count && At(i) !in entries) {
        return Err(NotContiguous);
      }
      var result := [];
      for i := 0 to count
        invariant |result| == i && (good ==> result == items[..i])
      {
        var item := LuaFieldToGo(id, At(i + 1), entries[At(i + 1)], active, if good then items[i] else Null, heap);
        if item.Err? {
          return Err(item.problem);
        }
        result := result + [item.value];
      }
      assert good ==> items[..count] == items;
      return Ok(result);
    }

    method LuaObjectToGo(id: nat, active: set<nat>, ghost fields: map<string, GoValue>, ghost heap: ResultBudget.Heap)
      returns (r: Result<map<string, GoValue>>)
      requires Valid() && id in tables && id != NullTable
      ensures Decoded(Obj(fields)) && Holds(Now(), LTable(id), Obj(fields)) && (forall a :: a in active ==> a <= id)
              ==> r == Ok(fields)
      ensures Views(heap, Now()) && ItemsSafe(heap, active, tables[id].entries) ==> r != Err(TableCycle)
      decreases |tables.Keys - active|, 2
    {
      ghost var good := Decoded(Obj(fields)) && Holds(Now(), LTable(id), Obj(fields))
          && (forall a :: a in active ==> a <= id);
      var entries := tables[id].entries;
      var rest, result := entries.Keys, map[];
      while rest != {}
        invariant rest <= entries.Keys
        invariant good ==> forall k :: k in result <==> k in fields && Named(k) !in rest
        invariant good ==> forall k :: k in result ==> result[k] == fields[k]
      {
        var key :| key in rest;
        if key.At? {
          return Err(NonStringKey);
        }
        var item := LuaFieldToGo(id, key, entries[key], active, if good then fields[key.name] else Null, heap);
        if item.Err? {
          return Err(item.problem);
        }
        result := result[key.name := item.value];
        rest := rest - {key};
      }
      assert good ==> result == fields;
      return Ok(result);
    }
  }

  /** Every table under conversion is older than the value. */
  ghost predicate Newer(active: set<nat>, lua: LuaValue) {
    lua.LTable? && lua.id != NullTable ==> forall a :: a in active ==> a < lua.id
  }

  predicate AllIndexes(entries: map<Key, LuaValue>) { forall key :: key in entries ==> key.At? && key.index >= 1 }

  function BsonInteger(value: int, wide: bool): GoValue {
    Int(value, wide || value < MinInt32 || value > MaxInt32)
  }

  /** Only integers stand for integers. */
  lemma IntegerField(s: Store, id: nat, key: Key, lua: LuaValue, v: GoValue)
    requires lua.LInt?
    ensures FieldHolds(s, id, key, lua, v) ==> v.Int?
  {
    assert !v.Int? ==> !Holds(s, lua, v);
  }

  lemma OneFewer(keys: set<nat>, active: set<nat>, id: nat)
    requires id in keys && id !in active
    ensures |keys - (active + {id})| < |keys - active|
  {
    assert keys - (active + {id}) == (keys - active) - {id};
  }

  ghost function IndexKeys(n: nat): (keys: set<Key>)
    ensures |keys| == n && forall key :: key in keys <==> key.At? && 1 <= key.index <= n
  {
    if n == 0 then {} else IndexKeys(n - 1) + {At(n)}
  }

  lemma CountIndexes(entries: map<Key, LuaValue>, n: nat)
    requires forall key :: key in entries <==> key.At? && 1 <= key.index <= n
    ensures |entries| == n
  {
    assert entries.Keys == IndexKeys(n);
    assert |entries| == |entries.Keys|;
  }

  /** A new table has no fields and changes nothing else. */
  lemma NewKeeps(s: Store, t: Store, meta: Meta)
    requires NullTable < s.nextTable
    requires t == s.(tables := s.tables[s.nextTable := LuaTable(meta, map[])], nextTable := s.nextTable + 1)
    ensures Keeps(s, t, 0) && Built(t, s.nextTable, meta, map[])
  {
  }

  /** Both bits are set when an integer occurred with both widths. */
  function WithKind(kind: nat, wide: bool): nat {
    var bit := if wide then 2 else 1;
    if kind == 0 || kind == bit then bit else 3
  }

  /** A decoded document converted to Lua and back, with no change in between, is
      the same document, on a bridge in any state: also when other documents were
      converted before, and when the same integer occurs with both widths. */
  method RoundTrip(bridge: Bridge, v: GoValue) returns (r: Result<GoValue>)
    requires bridge.Valid() && Decoded(v) && v.Obj?
    modifies bridge
    ensures r == Ok(v)
  {
    var lua := bridge.GoToLua(v);
    r := bridge.LuaToGo(lua, {}, v, map[]);
  }

  /** A script's result, measured and then converted: once the walk accepts it,
      the conversion reports no cycle, and gives back what the result stands for. */
  method ConvertResult(bridge: Bridge, lua: LuaValue, heap: ResultBudget.Heap, maximum: nat, ghost v: GoValue)
    returns (accepted: bool, r: Result<GoValue>)
    requires bridge.Valid() && Views(heap, bridge.Now())
    ensures accepted <==> ResultBudget.Accepted(heap, AsValue(lua), maximum)
    ensures accepted ==> r != Err(TableCycle)
    ensures accepted && Decoded(v) && Holds(bridge.Now(), lua, v) ==> r == Ok(v)
  {
    accepted := ResultBudget.ValidateResultBudget(heap, AsValue(lua), maximum);
    if !accepted {
      return false, Ok(Null);
    }
    ResultBudget.AcceptedSafe(heap, AsValue(lua), maximum);
    r := bridge.LuaToGo(lua, {}, v, heap);
  }

  /** Converting another document afterwards does not disturb the first. */
  method RoundTripTwo(first: GoValue, second: GoValue) returns (r: Result<GoValue>, q: Result<GoValue>)
    requires Decoded(first) && first.Obj? && Decoded(second) && second.Obj?
    ensures r == Ok(first) && q == Ok(second)
  {
    var bridge := new Bridge();
    var one := bridge.GoToLua(first);
    ghost var before := bridge.Now();
    var two := bridge.GoToLua(second);
    HoldsKept(before, bridge.Now(), one, first, 0);
    r := bridge.LuaToGo(one, {}, first, map[]);
    q := bridge.LuaToGo(two, {}, second, map[]);
  }
}
