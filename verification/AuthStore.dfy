/** The auth-state store of a device: an encoding of session trees that JSON can carry, and a
    two-level key map that is changed in memory, saved and reloaded. */
module AuthStore {
  import opened Common
  import opened Base64

  /** A JavaScript value without `undefined`; objects are maps from names to values. */
  datatype Tree =
    | Null
    | Bool(b: bool)
    | Num(n: real)
    | Str(s: string)
    | Bytes(bytes: seq<Byte>)
    | Arr(items: seq<Tree>)
    | Obj(fields: map<string, Tree>)

  /** `serializeBuffer`. */
  function Serialize(v: Tree): Tree {
    match v
    case Bytes(bytes) => Obj(map["_type" := Str("Buffer"), "data" := Str(Encode(bytes))])
    case Arr(items) => Arr(seq(|items|, i requires 0 <= i < |items| => Serialize(items[i])))
    case Obj(fields) => Obj(map k | k in fields :: Serialize(fields[k]))
    case _ => v
  }

  /** The objects that `deserializeBuffer` takes for encoded bytes. */
  predicate LooksEncoded(v: Tree) {
    && v.Obj? && "_type" in v.fields && v.fields["_type"] == Str("Buffer")
    && "data" in v.fields && v.fields["data"].Str?
  }

  /** `deserializeBuffer`, which is given what `JSON.parse` returns: trees without bytes. */
  function Deserialize(v: Tree): Tree {
    match v
    case Obj(fields) =>
      if LooksEncoded(v) then Bytes(Decode(fields["data"].s))
      else Obj(map k | k in fields :: Deserialize(fields[k]))
    case Arr(items) => Arr(seq(|items|, i requires 0 <= i < |items| => Deserialize(items[i])))
    case _ => v
  }

  /** An object is decoded to bytes exactly when its `_type` is the text `Buffer` and its `data` a text. */
  lemma DecodedIff(fields: map<string, Tree>)
    ensures Deserialize(Obj(fields)).Bytes? <==>
      "_type" in fields && fields["_type"] == Str("Buffer") && "data" in fields && fields["data"].Str?
    ensures Deserialize(Obj(fields)).Bytes? ==> Deserialize(Obj(fields)) == Bytes(Decode(fields["data"].s))
  {
  }

  /** No object of the tree looks like encoded bytes. */
  predicate Clean(v: Tree) {
    match v
    case Arr(items) => forall i | 0 <= i < |items| :: Clean(items[i])
    case Obj(fields) => !LooksEncoded(v) && forall k | k in fields :: Clean(fields[k])
    case _ => true
  }

  /** A tree JSON can carry. */
  predicate NoBytes(v: Tree) {
    match v
    case Bytes(_) => false
    case Arr(items) => forall i | 0 <= i < |items| :: NoBytes(items[i])
    case Obj(fields) => forall k | k in fields :: NoBytes(fields[k])
    case _ => true
  }

  lemma {:induction false} SerializedHasNoBytes(v: Tree)
    ensures NoBytes(Serialize(v))
  {
    match v
    case Arr(items) =>
      forall i | 0 <= i < |items| ensures NoBytes(Serialize(items[i])) { SerializedHasNoBytes(items[i]); }
    case Obj(fields) =>
      forall k | k in fields ensures NoBytes(Serialize(fields[k])) { SerializedHasNoBytes(fields[k]); }
    case _ =>
  }

  /** Serializing keeps an object from or from not looking encoded. */
  lemma SerializeKeepsLooks(v: Tree)
    requires v.Obj?
    ensures LooksEncoded(Serialize(v)) <==> LooksEncoded(v)
  {
  }

  /** The round trip returns the tree exactly when no object in it looks like encoded bytes. */
  lemma {:induction false} RoundTripIffClean(v: Tree)
    ensures Deserialize(Serialize(v)) == v <==> Clean(v)
  {
    match v
    case Bytes(bytes) =>
      RoundTrip(bytes);
    case Arr(items) =>
      forall i | 0 <= i < |items| ensures Deserialize(Serialize(items[i])) == items[i] <==> Clean(items[i]) {
        RoundTripIffClean(items[i]);
      }
      var r := Deserialize(Serialize(v)).items;
      assert |r| == |items| && forall i | 0 <= i < |r| :: r[i] == Deserialize(Serialize(items[i]));
      if Clean(v) { assert r == items; }
    case Obj(fields) =>
      SerializeKeepsLooks(v);
      forall k | k in fields ensures Deserialize(Serialize(fields[k])) == fields[k] <==> Clean(fields[k]) {
        RoundTripIffClean(fields[k]);
      }
      if !LooksEncoded(v) {
        var r := Deserialize(Serialize(v)).fields;
        assert r.Keys == fields.Keys && forall k | k in fields :: r[k] == Deserialize(Serialize(fields[k]));
        if Clean(v) { assert r == fields; }
      }
    case _ =>
  }

  // ---------------------------------------------------------------- the key store

  type Keys = map<string, map<string, Tree>>

  datatype Blob = Blob(creds: Tree, keys: Keys)

  /** One entry of a `set`: a null value deletes. */
  datatype Entry = Entry(id: string, value: Tree)

  /** The entries `set` is given for a type; it skips a type without any. */
  datatype TypeEntries = TypeEntries(keyType: string, entries: Option<seq<Entry>>)

  function SetEntries(m: map<string, Tree>, entries: seq<Entry>): map<string, Tree> {
    if entries == [] then m
    else
      var n := SetEntries(m, entries[..|entries| - 1]);
      var e := entries[|entries| - 1];
      if e.value.Null? then n - {e.id} else n[e.id := e.value]
  }

  function SetKeys(keys: Keys, data: seq<TypeEntries>): Keys {
    if data == [] then keys
    else
      var ks := SetKeys(keys, data[..|data| - 1]);
      var d := data[|data| - 1];
      if d.entries.None? then ks
      else ks[d.keyType := SetEntries(if d.keyType in ks then ks[d.keyType] else map[], d.entries.value)]
  }

  // The specification: one flat map from (type, id).

  type Flat = map<(string, string), Tree>

  ghost function Flatten(keys: Keys): Flat {
    map t, id | t in keys && id in keys[t] :: (t, id) := keys[t][id]
  }

  ghost function Put(m: Flat, keyType: string, e: Entry): Flat {
    if e.value.Null? then m - {(keyType, e.id)} else m[(keyType, e.id) := e.value]
  }

  ghost function PutEntries(m: Flat, keyType: string, entries: seq<Entry>): Flat {
    if entries == [] then m
    else Put(PutEntries(m, keyType, entries[..|entries| - 1]), keyType, entries[|entries| - 1])
  }

  ghost function PutAll(m: Flat, data: seq<TypeEntries>): Flat {
    if data == [] then m
    else
      var n := PutAll(m, data[..|data| - 1]);
      var d := data[|data| - 1];
      if d.entries.None? then n else PutEntries(n, d.keyType, d.entries.value)
  }

  lemma FlatAt(keys: Keys, p: (string, string))
    ensures p in Flatten(keys) <==> p.0 in keys && p.1 in keys[p.0]
    ensures p in Flatten(keys) ==> Flatten(keys)[p] == keys[p.0][p.1]
  {
  }

  lemma PutOne(keys: Keys, t: string, m: map<string, Tree>, e: Entry)
    ensures Flatten(keys[t := if e.value.Null? then m - {e.id} else m[e.id := e.value]])
         == Put(Flatten(keys[t := m]), t, e)
  {
    hide Flatten;
    var n := if e.value.Null? then m - {e.id} else m[e.id := e.value];
    var u, v := Flatten(keys[t := n]), Put(Flatten(keys[t := m]), t, e);
    forall p ensures p in u <==> p in v {
      FlatAt(keys[t := n], p);
      FlatAt(keys[t := m], p);
    }
    forall p | p in u ensures u[p] == v[p] {
      FlatAt(keys[t := n], p);
      FlatAt(keys[t := m], p);
    }
  }

  /** A type map that is created empty changes nothing. */
  lemma FlatSame(keys: Keys, t: string, m: map<string, Tree>)
    requires m == if t in keys then keys[t] else map[]
    ensures Flatten(keys[t := m]) == Flatten(keys)
  {
    hide Flatten;
    forall p ensures p in Flatten(keys[t := m]) <==> p in Flatten(keys) {
      FlatAt(keys[t := m], p);
      FlatAt(keys, p);
    }
    forall p | p in Flatten(keys) ensures Flatten(keys[t := m])[p] == Flatten(keys)[p] {
      FlatAt(keys[t := m], p);
      FlatAt(keys, p);
    }
  }

  lemma {:induction false} SetEntriesRefines(keys: Keys, t: string, m: map<string, Tree>, entries: seq<Entry>)
    requires m == if t in keys then keys[t] else map[]
    ensures Flatten(keys[t := SetEntries(m, entries)]) == PutEntries(Flatten(keys), t, entries)
  {
    hide Flatten, Put;
    if entries == [] {
      FlatSame(keys, t, m);
    } else {
      var front, e := entries[..|entries| - 1], entries[|entries| - 1];
      SetEntriesRefines(keys, t, m, front);
      PutOne(keys, t, SetEntries(m, front), e);
    }
  }

  /** Updating the two-level map is updating the flat one. */
  lemma {:induction false} SetRefines(keys: Keys, data: seq<TypeEntries>)
    ensures Flatten(SetKeys(keys, data)) == PutAll(Flatten(keys), data)
  {
    if data != [] {
      SetRefines(keys, data[..|data| - 1]);
      var ks, d := SetKeys(keys, data[..|data| - 1]), data[|data| - 1];
      if d.entries.Some? {
        SetEntriesRefines(ks, d.keyType, if d.keyType in ks then ks[d.keyType] else map[], d.entries.value);
      }
    }
  }

  // What one `set` does to one key: its last entry decides.

  /** The value of the last entry for an id; `Null` when that deletes, `None` without an entry. */
  function LastIn(entries: seq<Entry>, id: string): Option<Tree> {
    if entries == [] then None
    else if entries[|entries| - 1].id == id then Some(entries[|entries| - 1].value)
    else LastIn(entries[..|entries| - 1], id)
  }

  function Last(data: seq<TypeEntries>, t: string, id: string): Option<Tree> {
    if data == [] then None
    else
      var d := data[|data| - 1];
      if d.keyType == t && d.entries.Some? && LastIn(d.entries.value, id).Some? then LastIn(d.entries.value, id)
      else Last(data[..|data| - 1], t, id)
  }

  ghost function At(m: Flat, t: string, id: string): Option<Tree> {
    if (t, id) in m then Some(m[(t, id)]) else None
  }

  lemma {:induction false} PutEntriesAt(m: Flat, keyType: string, entries: seq<Entry>, t: string, id: string)
    ensures At(PutEntries(m, keyType, entries), t, id)
         == if keyType == t && LastIn(entries, id).Some?
            then (if LastIn(entries, id).value.Null? then None else LastIn(entries, id))
            else At(m, t, id)
  {
    if entries != [] {
      PutEntriesAt(m, keyType, entries[..|entries| - 1], t, id);
    }
  }

  /** After a `set`, a key holds what its last entry says, and nothing when that was null; a key
      without an entry keeps what it held. */
  lemma {:induction false} PutAllAt(m: Flat, data: seq<TypeEntries>, t: string, id: string)
    ensures At(PutAll(m, data), t, id)
         == if Last(data, t, id).Some? then (if Last(data, t, id).value.Null? then None else Last(data, t, id))
            else At(m, t, id)
  {
    if data != [] {
      var d := data[|data| - 1];
      PutAllAt(m, data[..|data| - 1], t, id);
      if d.entries.Some? {
        PutEntriesAt(PutAll(m, data[..|data| - 1]), d.keyType, d.entries.value, t, id);
      }
    }
  }

  // ---------------------------------------------------------------- the stored blob

  function TypeMaps(keys: Keys): map<string, Tree> {
    map t | t in keys :: Obj(keys[t])
  }

  /** A blob as the object that is stored. */
  function ToTree(b: Blob): Tree {
    Obj(map["creds" := b.creds, "keys" := Obj(TypeMaps(b.keys))])
  }

  /** A stored object read as a blob, when it has that shape. */
  function FromTree(v: Tree): Option<Blob> {
    if v.Obj? && v.fields.Keys == {"creds", "keys"} && v.fields["keys"].Obj?
       && forall t | t in v.fields["keys"].fields :: v.fields["keys"].fields[t].Obj?
    then
      var types := v.fields["keys"].fields;
      Some(Blob(v.fields["creds"], map t | t in types :: types[t].fields))
    else None
  }

  lemma ShapeRoundTrip(b: Blob)
    ensures FromTree(ToTree(b)) == Some(b)
  {
    assert FromTree(ToTree(b)).value.keys == b.keys;
  }

  lemma ShapeUnique(v: Tree, b: Blob)
    requires FromTree(v) == Some(b)
    ensures v == ToTree(b)
  {
    var types := v.fields["keys"].fields;
    assert TypeMaps(b.keys) == types;
    assert v.fields == map["creds" := b.creds, "keys" := Obj(types)];
  }

  function Save(b: Blob): Tree { Serialize(ToTree(b)) }

  function Load(row: Tree): Option<Blob> { FromTree(Deserialize(row)) }

  /** Reloading a saved blob returns it exactly when nothing in it looks like encoded bytes. */
  lemma ReloadIffClean(b: Blob)
    ensures Load(Save(b)) == Some(b) <==> Clean(ToTree(b))
  {
    hide Serialize, Deserialize, Clean, FromTree, ToTree;
    RoundTripIffClean(ToTree(b));
    ShapeRoundTrip(b);
    if Load(Save(b)) == Some(b) {
      ShapeUnique(Deserialize(Serialize(ToTree(b))), b);
    }
  }

  // ---------------------------------------------------------------- the store

  /** JavaScript's truth value. */
  predicate Truthy(v: Tree) {
    match v
    case Null => false
    case Bool(b) => b
    case Num(n) => n != 0.0
    case Str(s) => s != ""
    case _ => true
  }

  /** What a reader gets for a stored value. */
  function Converted(keyType: string, v: Tree, fromObject: Tree -> Tree): Tree {
    if keyType == "app-state-sync-key" && Truthy(v) then fromObject(v) else v
  }

  class AuthState {
    var creds: Tree
    var keys: Keys
    var row: Option<Tree>

    /** `usePrismaAuthState`: read the stored row of the device, or start with fresh credentials. A
        row that does not have the shape of a blob is not handled by the source. */
    constructor (row: Option<Tree>, initial: Tree)
      requires row.Some? ==> Load(row.value).Some?
      ensures this.row == row
      ensures Blob(creds, keys) == if row.Some? then Load(row.value).value else Blob(initial, map[])
    {
      this.row := row;
      if row.Some? {
        creds, keys := Load(row.value).value.creds, Load(row.value).value.keys;
      } else {
        creds, keys := initial, map[];
      }
    }

    /** `fromObject` is what turns a stored app-state-sync key into a message of the protocol. */
    method Get(keyType: string, ids: seq<string>, fromObject: Tree -> Tree) returns (result: map<string, Tree>)
      ensures forall id :: id in result <==> id in ids && (keyType, id) in Flatten(keys)
      ensures forall id | id in result ::
        var v := Flatten(keys)[(keyType, id)];
        result[id] == if keyType == "app-state-sync-key" && v !in {Null, Bool(false), Num(0.0), Str("")}
                      then fromObject(v) else v
    {
      var typeMap := if keyType in keys then keys[keyType] else map[];
      result := map[];
      for i := 0 to |ids|
        invariant forall id :: id in result <==> id in ids[..i] && id in typeMap
        invariant forall id | id in result :: result[id] == Converted(keyType, typeMap[id], fromObject)
      {
        assert forall id :: id in ids[..i + 1] <==> id in ids[..i] || id == ids[i];
        if ids[i] in typeMap {
          var val := typeMap[ids[i]];
          if keyType == "app-state-sync-key" && Truthy(val) {
            val := fromObject(val);
          }
          result := result[ids[i] := val];
        }
      }
      assert ids[..|ids|] == ids;
      forall id ensures id in typeMap <==> (keyType, id) in Flatten(keys) {
        FlatAt(keys, (keyType, id));
      }
      forall id | id in result ensures typeMap[id] == Flatten(keys)[(keyType, id)] {
        FlatAt(keys, (keyType, id));
      }
    }

    method Set(data: seq<TypeEntries>)
      modifies this`keys
      ensures keys == SetKeys(old(keys), data)
      ensures Flatten(keys) == PutAll(Flatten(old(keys)), data)
    {
      for i := 0 to |data|
        invariant keys == SetKeys(old(keys), data[..i])
      {
        assert data[..i + 1][..i] == data[..i];
        var d := data[i];
        if d.entries.None? { continue; }
        if d.keyType !in keys { keys := keys[d.keyType := map[]]; }
        ghost var start := keys[d.keyType];
        var entries := d.entries.value;
        for j := 0 to |entries|
          invariant d.keyType in keys && keys[d.keyType] == SetEntries(start, entries[..j])
          invariant keys == SetKeys(old(keys), data[..i])[d.keyType := keys[d.keyType]]
        {
          assert entries[..j + 1][..j] == entries[..j];
          if !entries[j].value.Null? {
            keys := keys[d.keyType := keys[d.keyType][entries[j].id := entries[j].value]];
          } else {
            keys := keys[d.keyType := keys[d.keyType] - {entries[j].id}];
          }
        }
        assert entries[..|entries|] == entries;
      }
      assert data[..|data|] == data;
      SetRefines(old(keys), data);
    }

    method Clear()
      modifies this`keys
      ensures keys == map[] && Flatten(keys) == map[]
    {
      keys := map[];
      assert Flatten(keys) == map[];
    }

    method SaveCreds()
      modifies this`row
      ensures row == Some(Save(Blob(creds, keys)))
      ensures Clean(ToTree(Blob(creds, keys))) <==> Load(row.value) == Some(Blob(creds, keys))
    {
      ReloadIffClean(Blob(creds, keys));
      row := Some(Serialize(ToTree(Blob(creds, keys))));
    }
  }

  // ---------------------------------------------------------------- runs

  /** A reload without a stored row starts with new credentials. */
  datatype Op = SetOp(data: seq<TypeEntries>) | ClearOp | CredsOp(creds: Tree) | SaveOp | ReloadOp(initial: Tree)

  /** The store in memory and its stored row. */
  datatype Store = Store(blob: Blob, row: Option<Tree>)

  /** What a reader of the store can know: the credentials and the flat map, now and as last saved. */
  datatype View = View(creds: Tree, flat: Flat)

  datatype Model = Model(now: View, saved: Option<View>)

  function Apply(s: Store, op: Op): Store {
    match op
    case SetOp(data) => s.(blob := s.blob.(keys := SetKeys(s.blob.keys, data)))
    case ClearOp => s.(blob := s.blob.(keys := map[]))
    case CredsOp(creds) => s.(blob := s.blob.(creds := creds))
    case SaveOp => s.(row := Some(Save(s.blob)))
    case ReloadOp(initial) =>
      if s.row.None? then s.(blob := Blob(initial, map[]))
      else if Load(s.row.value).Some? then s.(blob := Load(s.row.value).value)
      else s
  }

  ghost function ApplyModel(m: Model, op: Op): Model {
    match op
    case SetOp(data) => m.(now := m.now.(flat := PutAll(m.now.flat, data)))
    case ClearOp => m.(now := m.now.(flat := map[]))
    case CredsOp(creds) => m.(now := m.now.(creds := creds))
    case SaveOp => m.(saved := Some(m.now))
    case ReloadOp(initial) => m.(now := if m.saved.None? then View(initial, map[]) else m.saved.value)
  }

  function Run(s: Store, ops: seq<Op>): Store {
    if ops == [] then s else Apply(Run(s, ops[..|ops| - 1]), ops[|ops| - 1])
  }

  ghost function RunModel(m: Model, ops: seq<Op>): Model {
    if ops == [] then m else ApplyModel(RunModel(m, ops[..|ops| - 1]), ops[|ops| - 1])
  }

  ghost function ViewOf(b: Blob): View { View(b.creds, Flatten(b.keys)) }

  /** Whenever the run saves, nothing in the blob looks like encoded bytes. */
  predicate CleanSaves(s: Store, ops: seq<Op>) {
    forall i | 0 <= i < |ops| && ops[i].SaveOp? :: Clean(ToTree(Run(s, ops[..i]).blob))
  }

  ghost predicate Refines(s: Store, m: Model) {
    && ViewOf(s.blob) == m.now
    && (s.row.None? <==> m.saved.None?)
    && (s.row.Some? ==> Load(s.row.value).Some? && ViewOf(Load(s.row.value).value) == m.saved.value)
  }

  lemma OpRefines(s: Store, m: Model, op: Op)
    requires Refines(s, m) && (op.SaveOp? ==> Clean(ToTree(s.blob)))
    ensures Refines(Apply(s, op), ApplyModel(m, op))
  {
    hide Load, Save, Clean, ToTree, Flatten;
    match op
    case SetOp(data) => SetRefines(s.blob.keys, data);
    case ClearOp => FlatNone();
    case SaveOp => ReloadIffClean(s.blob);
    case ReloadOp(_) => FlatNone();
    case _ =>
  }

  lemma FlatNone()
    ensures Flatten(map[]) == map[]
  {
  }

  /** Under any sequence of operations, the store is a simple map, and a reload returns exactly the
      map of the last save. */
  lemma {:induction false} StoreIsMap(initial: Tree, ops: seq<Op>)
    requires CleanSaves(Store(Blob(initial, map[]), None), ops)
    ensures Refines(Run(Store(Blob(initial, map[]), None), ops),
                    RunModel(Model(View(initial, map[]), None), ops))
  {
    hide Load, Clean, ToTree, Apply, ApplyModel, Refines;
    var s, m := Store(Blob(initial, map[]), None), Model(View(initial, map[]), None);
    if ops == [] {
      StartRefines(initial);
    } else {
      var n := |ops| - 1;
      assert forall i | 0 <= i < n :: ops[..n][..i] == ops[..i];
      StoreIsMap(initial, ops[..n]);
      OpRefines(Run(s, ops[..n]), RunModel(m, ops[..n]), ops[n]);
    }
  }

  lemma StartRefines(initial: Tree)
    ensures Refines(Store(Blob(initial, map[]), None), Model(View(initial, map[]), None))
  {
    FlatNone();
  }
}
