// Masking secrets in output configurations and restoring them on update
// (internal/api/helpers.go, internal/api/handlers_outputs.go), on JSON trees.
module SecretMask {
  import opened LogLines

  datatype Json =
    | Null
    | Bool(b: bool)
    | Number(text: string)
    | Str(s: string)
    | Arr(items: seq<Json>)
    | Obj(fields: map<string, Json>)

  type Fields = map<string, Json>

  const SENSITIVE_KEYS: seq<string> := ["password", "token", "secret", "api_key", "apikey"]
  const SECRET_MASK := "****"

  predicate Contains(s: string, sub: string) {
    exists i :: 0 <= i <= |s| - |sub| && s[i..][..|sub|] == sub
  }

  /** `lower` is the lower-casing of keys. */
  predicate Sensitive(lower: string -> string, key: string) {
    exists i :: 0 <= i < |SENSITIVE_KEYS| && Contains(lower(key), SENSITIVE_KEYS[i])
  }

  /** What becomes of the value of a key. */
  function Masked(lower: string -> string, key: string, v: Json): Json
    decreases v
  {
    match v
    case Str(s) => if Sensitive(lower, key) && s != "" then Str(SECRET_MASK) else v
    case Obj(fields) => Obj(map k | k in fields :: Masked(lower, k, fields[k]))
    case _ => v
  }

  function Mask(lower: string -> string, fields: Fields): Fields {
    map k | k in fields :: Masked(lower, k, fields[k])
  }

  /** What becomes of an incoming value, given the stored one, if any. */
  function Restored(v: Json, stored: Option<Json>): Json {
    match v
    case Str(s) => if s == SECRET_MASK && stored.Some? then stored.value else v
    case Obj(fields) =>
      if stored.Some? && stored.value.Obj? then
        var olds := stored.value.fields;
        Obj(map k | k in fields :: Restored(fields[k], if k in olds then Some(olds[k]) else None))
      else v
    case _ => v
  }

  function Stored(olds: Fields, k: string): Option<Json> {
    if k in olds then Some(olds[k]) else None
  }

  function Restore(fields: Fields, olds: Fields): Fields {
    map k | k in fields :: Restored(fields[k], Stored(olds, k))
  }

  // ---------------------------------------------------------------- round trip

  lemma {:induction false} RestoredMasked(lower: string -> string, key: string, v: Json)
    ensures Restored(Masked(lower, key, v), Some(v)) == v
    decreases v
  {
    match v
    case Obj(fields) =>
      forall k | k in fields ensures Restored(Masked(lower, k, fields[k]), Some(fields[k])) == fields[k] {
        RestoredMasked(lower, k, fields[k]);
      }
      assert Restored(Masked(lower, key, v), Some(v)).fields == fields;
    case _ =>
  }

  /** Sending a masked configuration back unchanged restores it exactly. */
  lemma MaskRestoreRoundTrip(lower: string -> string, fields: Fields)
    ensures Restore(Mask(lower, fields), fields) == fields
  {
    forall k | k in fields ensures Restored(Masked(lower, k, fields[k]), Some(fields[k])) == fields[k] {
      RestoredMasked(lower, k, fields[k]);
    }
  }

  lemma {:induction false} MaskedTwice(lower: string -> string, key: string, v: Json)
    ensures Masked(lower, key, Masked(lower, key, v)) == Masked(lower, key, v)
    decreases v
  {
    match v
    case Obj(fields) =>
      forall k | k in fields
        ensures Masked(lower, k, Masked(lower, k, fields[k])) == Masked(lower, k, fields[k])
      {
        MaskedTwice(lower, k, fields[k]);
      }
      assert Masked(lower, key, Masked(lower, key, v)).fields == Masked(lower, key, v).fields;
    case _ =>
  }

  lemma MaskIdempotent(lower: string -> string, fields: Fields)
    ensures Mask(lower, Mask(lower, fields)) == Mask(lower, fields)
  {
    forall k | k in fields ensures Masked(lower, k, Masked(lower, k, fields[k])) == Masked(lower, k, fields[k]) {
      MaskedTwice(lower, k, fields[k]);
    }
  }

  // ---------------------------------------------------------------- by path

  /** The value reached through nested objects by following the keys. */
  function At(fields: Fields, path: seq<string>): Option<Json>
    requires path != []
    decreases |path|
  {
    if path[0] !in fields then None
    else if |path| == 1 then Some(fields[path[0]])
    else if fields[path[0]].Obj? then At(fields[path[0]].fields, path[1..])
    else None
  }

  /** No secret survives at any depth of nested objects: a string under a sensitive key is empty
      or the mask; every other string, and every value that is not a string, is what it was. */
  lemma {:induction false} NoSecretLeft(lower: string -> string, fields: Fields, path: seq<string>)
    requires path != []
    ensures At(Mask(lower, fields), path).Some? <==> At(fields, path).Some?
    ensures At(fields, path).Some? ==>
              var before, now := At(fields, path).value, At(Mask(lower, fields), path).value;
              && (before.Str? ==>
                    now == if Sensitive(lower, path[|path| - 1]) && before.s != "" then Str("****") else before)
              && (before.Obj? ==> now.Obj? && now.fields.Keys == before.fields.Keys)
              && (!before.Str? && !before.Obj? ==> now == before)
    decreases |path|
  {
    if |path| > 1 && path[0] in fields && fields[path[0]].Obj? {
      var inner := fields[path[0]].fields;
      assert Mask(lower, fields)[path[0]] == Obj(Mask(lower, inner));
      NoSecretLeft(lower, inner, path[1..]);
      assert path[1..][|path[1..]| - 1] == path[|path| - 1];
    }
  }

  /** An update, path by path: a mask stands for the stored value when there is one at that path;
      every other value that is not an object is the incoming one; no path appears or disappears
      except below a restored mask. */
  lemma {:induction false} RestoreByPath(fields: Fields, olds: Fields, path: seq<string>)
    requires path != [] && At(fields, path).Some?
    ensures At(Restore(fields, olds), path).Some?
    ensures var incoming, result := At(fields, path).value, At(Restore(fields, olds), path).value;
            && (incoming == Str("****") ==>
                  result == if At(olds, path).Some? then At(olds, path).value else incoming)
            && (incoming != Str("****") && !incoming.Obj? ==> result == incoming)
            && (incoming.Obj? ==> result.Obj? && result.fields.Keys == incoming.fields.Keys)
    decreases |path|
  {
    if |path| > 1 {
      var inner := fields[path[0]].fields;
      if path[0] in olds && olds[path[0]].Obj? {
        assert Restore(fields, olds)[path[0]] == Obj(Restore(inner, olds[path[0]].fields)) by {
          assert Restored(fields[path[0]], Some(olds[path[0]])).fields == Restore(inner, olds[path[0]].fields);
        }
        RestoreByPath(inner, olds[path[0]].fields, path[1..]);
      } else {
        assert Restore(fields, olds)[path[0]] == fields[path[0]];
        assert At(olds, path).None?;
      }
    }
  }

  // ---------------------------------------------------------------- the update as a whole

  /** A stored or submitted configuration: nothing, text that is not a JSON object, or an object. */
  datatype Config = Empty | Malformed(text: string) | Parsed(fields: Fields)

  /** mergeMaskedSecrets, on trees. */
  function Merge(existing: Config, incoming: Config): Config {
    if incoming.Empty? then existing
    else if existing.Empty? || existing.Malformed? || incoming.Malformed? then incoming
    else Parsed(Restore(incoming.fields, existing.fields))
  }

  /** What the interface shows: a configuration that cannot be parsed is shown as it is. */
  function Shown(lower: string -> string, config: Config): Config {
    if config.Parsed? then Parsed(Mask(lower, config.fields)) else config
  }

  /** Saving what was shown, unchanged, never changes the stored configuration. */
  lemma SavingWhatWasShown(lower: string -> string, stored: Config)
    ensures Merge(stored, Shown(lower, stored)) == stored
  {
    if stored.Parsed? { MaskRestoreRoundTrip(lower, stored.fields); }
  }

  // ---------------------------------------------------------------- the code

  /** A string contains another exactly when it can be split around it. */
  lemma ContainsIff(s: string, sub: string)
    ensures Contains(s, sub) <==> exists pre, post :: s == pre + sub + post
  {
    if Contains(s, sub) {
      var i :| 0 <= i <= |s| - |sub| && s[i..][..|sub|] == sub;
      assert s == s[..i] + sub + s[i + |sub|..];
    }
    if pre, post :| s == pre + sub + post {
      assert s[|pre|..][..|sub|] == sub;
    }
  }

  /** A key is sensitive exactly when one of the five words is somewhere in its lower-case form. */
  lemma SensitiveWords(lower: string -> string, key: string)
    ensures Sensitive(lower, key)
            <==> exists word, pre, post ::
                   word in ["password", "token", "secret", "api_key", "apikey"] && lower(key) == pre + word + post
  {
    var words := ["password", "token", "secret", "api_key", "apikey"];
    if Sensitive(lower, key) {
      var i :| 0 <= i < |SENSITIVE_KEYS| && Contains(lower(key), SENSITIVE_KEYS[i]);
      ContainsIff(lower(key), SENSITIVE_KEYS[i]);
      var pre, post :| lower(key) == pre + SENSITIVE_KEYS[i] + post;
      assert SENSITIVE_KEYS[i] in words;
    }
    if word, pre, post :| word in words && lower(key) == pre + word + post {
      var i :| 0 <= i < |words| && words[i] == word;
      ContainsIff(lower(key), SENSITIVE_KEYS[i]);
    }
  }

  method IsSensitive(lower: string -> string, key: string) returns (found: bool)
    ensures found <==> Sensitive(lower, key)
    ensures found <==> exists word, pre, post ::
              word in ["password", "token", "secret", "api_key", "apikey"] && lower(key) == pre + word + post
  {
    SensitiveWords(lower, key);
    var lowered := lower(key);
    for i := 0 to |SENSITIVE_KEYS|
      invariant forall j :: 0 <= j < i ==> !Contains(lowered, SENSITIVE_KEYS[j])
    {
      var found := FindSub(lowered, SENSITIVE_KEYS[i]);
      if found {
        return true;
      }
    }
    return false;
  }

  method FindSub(s: string, sub: string) returns (found: bool)
    ensures found <==> Contains(s, sub)
  {
    for i := 0 to |s| + 1
      invariant forall j :: 0 <= j < i && j <= |s| - |sub| ==> s[j..][..|sub|] != sub
    {
      if i <= |s| - |sub| && s[i..][..|sub|] == sub {
        return true;
      }
    }
    return false;
  }

  /** A value in a decoded object: anything but an object, or a reference to one. */
  datatype Value =
    | Leaf(json: Json)
    | Nested(obj: JsonObject)

  /** A decoded JSON object, updated in place. */
  class JsonObject {
    var fields: map<string, Value>
    ghost var Repr: set<JsonObject>     // this object and all those below it

    ghost predicate Valid()
      reads this, Repr
      decreases Repr
    {
      && this in Repr
      && (forall k :: k in fields ==> ChildValid(fields[k]))
      && (forall j, k :: j in fields && k in fields && j != k ==> Footprint(fields[j]) !! Footprint(fields[k]))
    }

    /** The value is a tree of its own, strictly below this object. */
    ghost predicate ChildValid(v: Value)
      reads this, Repr
      decreases Repr, 0
    {
      match v
      case Leaf(json) => !json.Obj?
      case Nested(o) => o in Repr && o.Repr < Repr && this !in o.Repr && o.Valid()
    }

    /** The tree it stands for. */
    ghost function Tree(): Fields
      requires Valid()
      reads this, Repr
      decreases Repr, 1
    {
      map k | k in fields :: TreeOf(fields[k])
    }

    ghost function TreeOf(v: Value): Json
      requires ChildValid(v)
      reads this, Repr
      decreases Repr, 0
    {
      match v
      case Leaf(json) => json
      case Nested(o) => Obj(o.Tree())
    }
  }

  ghost function Footprint(v: Value): set<JsonObject>
    reads if v.Nested? then {v.obj} else {}
  {
    if v.Nested? then v.obj.Repr else {}
  }

  /** The objects below two entries are different, and none is the object itself. */
  lemma Apart(m: JsonObject, j: string, k: string)
    requires m.Valid() && j in m.fields && k in m.fields && j != k
    ensures Footprint(m.fields[j]) !! Footprint(m.fields[k]) && Footprint(m.fields[j]) <= m.Repr - {m}
    ensures m.ChildValid(m.fields[j])
    ensures m.fields[j].Nested? ==> m.fields[j].obj in Footprint(m.fields[j])
  {
    if m.fields[j].Nested? { assert m.fields[j].obj.Valid(); }
  }

  lemma TreeIs(m: JsonObject, tree: Fields)
    requires m.Valid() && m.fields.Keys == tree.Keys
    requires forall j :: j in m.fields ==> m.TreeOf(m.fields[j]) == tree[j]
    ensures m.Tree() == tree
  {
  }

  /** The string of a sensitive key gives way to the mask. */
  method MaskString(m: JsonObject, k: string)
    requires m.Valid() && k in m.fields && m.fields[k].Leaf?
    modifies m`fields
    ensures m.Valid() && m.Tree() == old(m.Tree())[k := Str("****")]
  {
    m.fields := m.fields[k := Leaf(Str(SECRET_MASK))];
    forall j | j in m.fields && j != k
      ensures m.ChildValid(m.fields[j]) && m.TreeOf(m.fields[j]) == old(m.TreeOf(m.fields[j]))
    {
      assert old(m.ChildValid(m.fields[j]));
    }
  }

  /** The object of a key is masked in place. */
  method MaskNested(lower: string -> string, m: JsonObject, k: string)
    requires m.Valid() && k in m.fields && m.fields[k].Nested?
    modifies m.Repr
    ensures m.Valid() && m.Repr == old(m.Repr)
    ensures m.Tree() == old(m.Tree())[k := Masked(lower, k, old(m.Tree())[k])]
    decreases m.Repr, 0
  {
    var v := m.fields[k];
    ghost var tree := m.Tree();
    assert m.ChildValid(v);
    assert tree[k] == m.TreeOf(v);
    MaskedNested(lower, k, v.obj.Tree());
    forall j | j in m.fields && j != k
      ensures Footprint(m.fields[j]) !! v.obj.Repr && Footprint(m.fields[j]) <= m.Repr - {m}
      ensures m.ChildValid(m.fields[j]) && m.TreeOf(m.fields[j]) == tree[j]
      ensures m.fields[j].Nested? ==> m.fields[j].obj in Footprint(m.fields[j])
    {
      Apart(m, j, k);
    }
    MaskMapSecrets(lower, v.obj);
    forall j | j in m.fields && j != k
      ensures m.ChildValid(m.fields[j]) && m.TreeOf(m.fields[j]) == tree[j]
      ensures Footprint(m.fields[j]) == old(Footprint(m.fields[j]))
    {
    }
    assert m.ChildValid(v);
    TreeIs(m, tree[k := Obj(v.obj.Tree())]);
  }

  lemma MaskedNested(lower: string -> string, k: string, fields: Fields)
    ensures Masked(lower, k, Obj(fields)) == Obj(Mask(lower, fields))
  {
  }

  /** One entry of maskMapSecrets: nothing else in the tree changes. */
  method MaskEntry(lower: string -> string, m: JsonObject, k: string)
    requires m.Valid() && k in m.fields
    modifies m.Repr
    ensures m.Valid() && m.Repr == old(m.Repr)
    ensures m.Tree() == old(m.Tree())[k := Masked(lower, k, old(m.Tree())[k])]
    decreases m.Repr, 1
  {
    assert m.ChildValid(m.fields[k]);
    assert m.Tree()[k := m.Tree()[k]] == m.Tree();
    var v := m.fields[k];
    var sensitive := IsSensitive(lower, k);
    if sensitive && v.Leaf? && v.json.Str? && v.json.s != "" {
      MaskString(m, k);
    }
    if v.Nested? {
      MaskNested(lower, m, k);
    }
  }

  /** maskMapSecrets: every object of the tree is overwritten in place, its entries in any order. */
  method MaskMapSecrets(lower: string -> string, m: JsonObject)
    requires m.Valid()
    modifies m.Repr
    ensures m.Valid() && m.Repr == old(m.Repr)
    ensures m.Tree() == Mask(lower, old(m.Tree()))
    decreases m.Repr, 2
  {
    ghost var before := m.Tree();
    var todo := m.fields.Keys;
    MaskingStarts(lower, before);
    while todo != {}
      invariant m.Valid() && m.Repr == old(m.Repr)
      invariant todo <= m.Tree().Keys && m.Tree() == Masking(lower, before, todo)
      decreases todo
    {
      var k :| k in todo;
      MaskEntry(lower, m, k);
      MaskingStep(lower, before, todo, k);
      todo := todo - {k};
    }
    MaskingEnds(lower, before);
  }

  /** The keys in `todo` have still to be masked. */
  ghost function Masking(lower: string -> string, fields: Fields, todo: set<string>): Fields {
    map k | k in fields :: if k in todo then fields[k] else Masked(lower, k, fields[k])
  }

  lemma MaskingStarts(lower: string -> string, fields: Fields)
    ensures Masking(lower, fields, fields.Keys) == fields
  {
  }

  lemma MaskingEnds(lower: string -> string, fields: Fields)
    ensures Masking(lower, fields, {}) == Mask(lower, fields)
  {
  }

  lemma MaskingStep(lower: string -> string, fields: Fields, todo: set<string>, k: string)
    requires k in fields && k in todo
    ensures Masking(lower, fields, todo)[k] == fields[k]
    ensures Masking(lower, fields, todo)[k := Masked(lower, k, fields[k])] == Masking(lower, fields, todo - {k})
  {
  }

  /** What a restored entry may have taken over from the stored object. */
  ghost function OldPart(olds: JsonObject, k: string): set<JsonObject>
    requires olds.Valid()
    reads olds, olds.Repr
  {
    if k in olds.fields then assert olds.ChildValid(olds.fields[k]); Footprint(olds.fields[k]) else {}
  }

  /** The objects that make up each entry. */
  ghost function Foots(m: JsonObject): map<string, set<JsonObject>>
    reads m, set j | j in m.fields && m.fields[j].Nested? :: m.fields[j].obj
  {
    map j | j in m.fields :: Footprint(m.fields[j])
  }

  /** Of the objects r0 and those of the stored tree, the entries share none; those in `todo` have
      only the former, each of the others possibly also those of the stored value of its key. */
  ghost predicate Fits(foot: map<string, set<JsonObject>>, olds: JsonObject, r0: set<JsonObject>, todo: set<string>)
    requires olds.Valid()
    reads olds, olds.Repr
  {
    && (forall j :: j in foot ==> foot[j] <= if j in todo then r0 else r0 + OldPart(olds, j))
    && (forall i, j :: i in foot && j in foot && i != j ==> foot[i] !! foot[j])
  }

  /** During the restoration of `m`, made of the objects r0 at first: entry by entry, the tree. */
  ghost predicate Restoring(m: JsonObject, olds: JsonObject, r0: set<JsonObject>, todo: set<string>, tree: Fields)
    requires olds.Valid()
    reads m, m.Repr, olds, olds.Repr
  {
    && m in r0 && r0 !! olds.Repr && m.Repr == r0 + olds.Repr && m.fields.Keys == tree.Keys
    && (forall j :: j in m.fields ==> m.ChildValid(m.fields[j]) && m.TreeOf(m.fields[j]) == tree[j])
    && Fits(Foots(m), olds, r0, todo)
  }

  /** An entry that takes over the stored value of its key. */
  lemma FitsNext(foot: map<string, set<JsonObject>>, olds: JsonObject, r0: set<JsonObject>, todo: set<string>, k: string,
                 part: set<JsonObject>)
    requires olds.Valid() && r0 !! olds.Repr && Fits(foot, olds, r0, todo)
    requires k in foot && k in todo && part <= foot[k] + OldPart(olds, k)
    ensures Fits(foot[k := part], olds, r0, todo - {k})
  {
    forall j | j in foot && j != k ensures foot[j] !! part {
      if j in olds.fields && k in olds.fields { Apart(olds, j, k); }
    }
  }

  lemma RestoringTree(m: JsonObject, olds: JsonObject, r0: set<JsonObject>, todo: set<string>, tree: Fields)
    requires olds.Valid() && Restoring(m, olds, r0, todo, tree)
    ensures m.Valid() && m.Tree() == tree
  {
    assert forall j :: j in m.fields ==> Foots(m)[j] == Footprint(m.fields[j]);
  }

  /** The footprint of the restored object grows by the stored one before anything is shared. */
  method Grow(m: JsonObject, olds: JsonObject)
    requires m.Valid() && olds.Valid() && m.Repr !! olds.Repr
    modifies m`Repr
    ensures olds.Valid() && olds.Tree() == old(olds.Tree()) && m.fields == old(m.fields)
    ensures Restoring(m, olds, old(m.Repr), m.fields.Keys, old(m.Tree()))
  {
    ghost var tree := m.Tree();
    forall j | j in m.fields
      ensures m.ChildValid(m.fields[j]) && m.TreeOf(m.fields[j]) == tree[j] && Footprint(m.fields[j]) <= m.Repr - {m}
    {
    }
    m.Repr := m.Repr + olds.Repr;
    forall j | j in m.fields ensures m.ChildValid(m.fields[j]) && m.TreeOf(m.fields[j]) == tree[j] {
    }
  }

  /** The objects of another entry have nothing to do with what restoring key k touches or takes over. */
  lemma RestoringApart(m: JsonObject, olds: JsonObject, r0: set<JsonObject>, todo: set<string>, tree: Fields, j: string, k: string)
    requires olds.Valid() && Restoring(m, olds, r0, todo, tree)
    requires j in m.fields && k in todo && k in m.fields && j != k
    ensures Footprint(m.fields[j]) !! Footprint(m.fields[k]) + OldPart(olds, k) && m !in Footprint(m.fields[j])
    ensures m.fields[j].Nested? ==> m.fields[j].obj in m.fields[j].obj.Repr
  {
    assert m.ChildValid(m.fields[j]) && Foots(m)[j] == Footprint(m.fields[j]) && Foots(m)[k] == Footprint(m.fields[k]);
    if m.fields[j].Nested? { assert m.fields[j].obj.Valid(); }
    if j in olds.fields && k in olds.fields { Apart(olds, j, k); }
  }

  lemma RestoringFrom(m: JsonObject, olds: JsonObject, r0: set<JsonObject>, todo: set<string>, tree: Fields,
                      foot: map<string, set<JsonObject>>)
    requires olds.Valid() && m in r0 && r0 !! olds.Repr && m.Repr == r0 + olds.Repr
    requires m.fields.Keys == tree.Keys == foot.Keys && Fits(foot, olds, r0, todo)
    requires forall j :: j in m.fields ==> m.ChildValid(m.fields[j]) && m.TreeOf(m.fields[j]) == tree[j]
    requires forall j :: j in m.fields ==> Footprint(m.fields[j]) == foot[j]
    ensures Restoring(m, olds, r0, todo, tree)
  {
    assert Foots(m) == foot;
  }

  /** One entry replaced: the others, and the stored object, are what they were. */
  method SetField(m: JsonObject, olds: JsonObject, k: string, v: Value,
                  ghost tree: Fields, ghost foot: map<string, set<JsonObject>>)
    requires olds.Valid() && m !in olds.Repr
    requires k in m.fields && m.fields.Keys == tree.Keys == foot.Keys && m.ChildValid(v)
    requires forall j :: j in m.fields ==> m.ChildValid(m.fields[j]) && m.TreeOf(m.fields[j]) == tree[j]
    requires forall j :: j in m.fields ==> Footprint(m.fields[j]) == foot[j]
    modifies m`fields
    ensures olds.Valid() && olds.Tree() == old(olds.Tree())
    ensures m.fields == old(m.fields)[k := v]
    ensures forall j :: j in m.fields ==>
              m.ChildValid(m.fields[j]) && m.TreeOf(m.fields[j]) == tree[k := old(m.TreeOf(v))][j]
    ensures forall j :: j in m.fields ==> Footprint(m.fields[j]) == foot[k := old(Footprint(v))][j]
  {
    Assign(m, k, v, tree, foot);
  }

  method Assign(m: JsonObject, k: string, v: Value, ghost tree: Fields, ghost foot: map<string, set<JsonObject>>)
    requires k in m.fields && m.fields.Keys == tree.Keys == foot.Keys && m.ChildValid(v)
    requires forall j :: j in m.fields ==> m.ChildValid(m.fields[j]) && m.TreeOf(m.fields[j]) == tree[j]
    requires forall j :: j in m.fields ==> Footprint(m.fields[j]) == foot[j]
    modifies m`fields
    ensures m.fields == old(m.fields)[k := v]
    ensures forall j :: j in m.fields ==>
              m.ChildValid(m.fields[j]) && m.TreeOf(m.fields[j]) == tree[k := old(m.TreeOf(v))][j]
    ensures forall j :: j in m.fields ==> Footprint(m.fields[j]) == foot[k := old(Footprint(v))][j]
  {
    m.fields := m.fields[k := v];
    assert m.ChildValid(v) && m.TreeOf(v) == old(m.TreeOf(v)) && Footprint(v) == old(Footprint(v));
    forall j | j in m.fields && j != k
      ensures m.ChildValid(m.fields[j]) && m.TreeOf(m.fields[j]) == tree[j] && Footprint(m.fields[j]) == foot[j]
    {
    }
  }

  /** A stored value can become an entry of the restored object. */
  lemma AdoptReady(m: JsonObject, olds: JsonObject, r0: set<JsonObject>, todo: set<string>, tree: Fields, k: string)
    requires olds.Valid() && Restoring(m, olds, r0, todo, tree) && k in olds.fields
    ensures olds.ChildValid(olds.fields[k]) && m.ChildValid(olds.fields[k])
    ensures m.TreeOf(olds.fields[k]) == olds.Tree()[k]
    ensures Footprint(olds.fields[k]) == OldPart(olds, k)
  {
  }

  /** The mask gives way to the stored value, which both trees then share. */
  method AdoptOld(m: JsonObject, olds: JsonObject, k: string, ghost r0: set<JsonObject>, ghost todo: set<string>,
                  ghost tree: Fields)
    requires olds.Valid() && Restoring(m, olds, r0, todo, tree)
    requires k in todo && k in m.fields && m.fields[k].Leaf? && k in olds.fields
    modifies m`fields
    ensures olds.Valid() && olds.Tree() == old(olds.Tree())
    ensures Restoring(m, olds, r0, todo - {k}, tree[k := olds.Tree()[k]])
  {
    ghost var tree', foot' := tree[k := olds.Tree()[k]], Foots(m)[k := OldPart(olds, k)];
    FitsNext(Foots(m), olds, r0, todo, k, OldPart(olds, k));
    AdoptReady(m, olds, r0, todo, tree, k);
    SetField(m, olds, k, olds.fields[k], tree, Foots(m));
    assert Fits(foot', olds, r0, todo - {k});
    RestoringFrom(m, olds, r0, todo - {k}, tree', foot');
  }

  /** What restoring the object of key k needs. */
  lemma NestedReady(m: JsonObject, olds: JsonObject, r0: set<JsonObject>, todo: set<string>, tree: Fields, k: string)
    requires olds.Valid() && Restoring(m, olds, r0, todo, tree)
    requires k in todo && k in m.fields && m.fields[k].Nested? && k in olds.fields && olds.fields[k].Nested?
    ensures var o, oldObj := m.fields[k].obj, olds.fields[k].obj;
            && o.Valid() && oldObj.Valid() && o.Repr !! oldObj.Repr && m !in o.Repr && m !in oldObj.Repr
            && o.Repr < r0 && oldObj.Repr <= olds.Repr && o in o.Repr
            && tree[k] == Obj(o.Tree()) && olds.Tree()[k] == Obj(oldObj.Tree())
            && Restored(tree[k], Some(olds.Tree()[k])) == Obj(Restore(o.Tree(), oldObj.Tree()))
  {
    assert m.ChildValid(m.fields[k]) && olds.ChildValid(olds.fields[k]);
    RestoredNested(m.fields[k].obj.Tree(), olds.fields[k].obj.Tree());
  }

  lemma RestoredNested(fields: Fields, olds: Fields)
    ensures Restored(Obj(fields), Some(Obj(olds))) == Obj(Restore(fields, olds))
  {
  }

  /** The other entries have nothing to do with the objects `busy`. */
  ghost predicate OthersApart(m: JsonObject, k: string, busy: set<JsonObject>)
    reads m, set j | j in m.fields && m.fields[j].Nested? :: m.fields[j].obj
  {
    forall j :: j in m.fields && j != k ==>
      && Footprint(m.fields[j]) !! busy && m !in Footprint(m.fields[j])
      && (m.fields[j].Nested? ==> m.fields[j].obj in m.fields[j].obj.Repr)
  }

  /** Restoring one object leaves the other entries as they are. */
  method RestoreBelow(m: JsonObject, olds: JsonObject, k: string, ghost tree: Fields)
    requires olds.Valid() && k in m.fields && m.fields[k].Nested? && k in olds.fields && olds.fields[k].Nested?
    requires m.fields.Keys == tree.Keys
    requires forall j :: j in m.fields ==> m.ChildValid(m.fields[j]) && m.TreeOf(m.fields[j]) == tree[j]
    requires var o, oldObj := m.fields[k].obj, olds.fields[k].obj;
             && o.Valid() && oldObj.Valid() && o.Repr !! olds.Repr && oldObj.Repr <= olds.Repr && o.Repr + oldObj.Repr < m.Repr
             && m !in o.Repr && m !in oldObj.Repr && OthersApart(m, k, o.Repr + oldObj.Repr)
    modifies m.fields[k].obj.Repr
    ensures olds.Valid() && olds.Tree() == old(olds.Tree()) && forall j :: OldPart(olds, j) == old(OldPart(olds, j))
    ensures m.fields == old(m.fields) && m.Repr == old(m.Repr)
    ensures forall j :: j in m.fields && j != k ==>
              && m.ChildValid(m.fields[j]) && m.TreeOf(m.fields[j]) == tree[j]
              && Footprint(m.fields[j]) == old(Footprint(m.fields[j]))
    ensures m.ChildValid(m.fields[k])
    ensures m.TreeOf(m.fields[k]) == Obj(Restore(old(m.fields[k].obj.Tree()), old(olds.fields[k].obj.Tree())))
    ensures Footprint(m.fields[k]) == old(Footprint(m.fields[k])) + old(OldPart(olds, k))
    decreases m.fields[k].obj.Repr, 3
  {
    RestoreMaskedSecrets(m.fields[k].obj, olds.fields[k].obj);
    forall j ensures OldPart(olds, j) == old(OldPart(olds, j)) {
      assert j in olds.fields ==> old(olds.ChildValid(olds.fields[j]));
    }
    forall j | j in m.fields && j != k
      ensures m.ChildValid(m.fields[j]) && m.TreeOf(m.fields[j]) == tree[j]
      ensures Footprint(m.fields[j]) == old(Footprint(m.fields[j]))
    {
    }
  }

  /** The object of a key is restored in place from the stored object of that key. */
  method RestoreNested(m: JsonObject, olds: JsonObject, k: string, ghost r0: set<JsonObject>, ghost todo: set<string>,
                       ghost tree: Fields)
    requires olds.Valid() && Restoring(m, olds, r0, todo, tree)
    requires k in todo && k in m.fields && m.fields[k].Nested? && k in olds.fields && olds.fields[k].Nested?
    modifies r0
    ensures olds.Valid() && olds.Tree() == old(olds.Tree()) && m.fields == old(m.fields)
    ensures Restoring(m, olds, r0, todo - {k}, tree[k := Restored(tree[k], Some(olds.Tree()[k]))])
    decreases r0, 0
  {
    ghost var tree' := tree[k := Restored(tree[k], Some(olds.Tree()[k]))];
    ghost var part := Footprint(m.fields[k]) + OldPart(olds, k);
    ghost var foot' := Foots(m)[k := part];
    FitsNext(Foots(m), olds, r0, todo, k, part);
    forall j | j in m.fields && j != k
      ensures Footprint(m.fields[j]) !! part && m !in Footprint(m.fields[j])
      ensures m.fields[j].Nested? ==> m.fields[j].obj in m.fields[j].obj.Repr
    {
      RestoringApart(m, olds, r0, todo, tree, j, k);
    }
    NestedReady(m, olds, r0, todo, tree, k);
    RestoreBelow(m, olds, k, tree);
    RestoringFrom(m, olds, r0, todo - {k}, tree', foot');
  }

  /** One entry of restoreMaskedSecrets. */
  method RestoreEntry(m: JsonObject, olds: JsonObject, k: string, ghost r0: set<JsonObject>, ghost todo: set<string>,
                      ghost tree: Fields)
    requires olds.Valid() && Restoring(m, olds, r0, todo, tree) && k in todo && k in m.fields
    modifies r0
    ensures olds.Valid() && olds.Tree() == old(olds.Tree())
    ensures Restoring(m, olds, r0, todo - {k}, tree[k := Restored(tree[k], Stored(olds.Tree(), k))])
    decreases r0, 1
  {
    var v := m.fields[k];
    if v == Leaf(Str(SECRET_MASK)) {
      if k in olds.fields {
        AdoptOld(m, olds, k, r0, todo, tree);
        return;
      }
    } else if v.Nested? && k in olds.fields && olds.fields[k].Nested? {
      RestoreNested(m, olds, k, r0, todo, tree);
      return;
    }
    assert Restored(tree[k], Stored(olds.Tree(), k)) == tree[k];
    assert tree[k := tree[k]] == tree;
  }

  /** restoreMaskedSecrets: the incoming tree is overwritten in place, its entries in any order; the
      stored one does not change. */
  method RestoreMaskedSecrets(m: JsonObject, olds: JsonObject)
    requires m.Valid() && olds.Valid() && m.Repr !! olds.Repr
    modifies m.Repr
    ensures m.Valid() && m.Repr == old(m.Repr) + olds.Repr
    ensures m.Tree() == Restore(old(m.Tree()), olds.Tree())
    decreases m.Repr, 2
  {
    ghost var before, stored, r0 := m.Tree(), olds.Tree(), m.Repr;
    var todo := m.fields.Keys;
    Grow(m, olds);
    RestorationStarts(before, stored);
    while todo != {}
      invariant olds.Valid() && olds.Tree() == stored && todo <= before.Keys
      invariant Restoring(m, olds, r0, todo, Restoration(before, stored, todo))
      decreases todo
    {
      var k :| k in todo;
      RestoreEntry(m, olds, k, r0, todo, Restoration(before, stored, todo));
      RestorationStep(before, stored, todo, k);
      todo := todo - {k};
    }
    RestorationEnds(before, stored);
    RestoringTree(m, olds, r0, {}, Restore(before, stored));
  }

  /** The keys in `todo` have still to be restored. */
  ghost function Restoration(fields: Fields, olds: Fields, todo: set<string>): Fields {
    map k | k in fields :: if k in todo then fields[k] else Restored(fields[k], Stored(olds, k))
  }

  lemma RestorationStarts(fields: Fields, olds: Fields)
    ensures Restoration(fields, olds, fields.Keys) == fields
  {
  }

  lemma RestorationEnds(fields: Fields, olds: Fields)
    ensures Restoration(fields, olds, {}) == Restore(fields, olds)
  {
  }

  lemma RestorationStep(fields: Fields, olds: Fields, todo: set<string>, k: string)
    requires k in fields && k in todo
    ensures Restoration(fields, olds, todo)[k] == fields[k]
    ensures Restoration(fields, olds, todo)[k := Restored(fields[k], Stored(olds, k))]
            == Restoration(fields, olds, todo - {k})
  {
  }

  /** A configuration after decoding; every decoding makes new objects. */
  datatype Decoded = NoConfig | NotAnObject(text: string) | Object(obj: JsonObject)

  ghost function Meaning(d: Decoded): Config
    requires d.Object? ==> d.obj.Valid()
    reads if d.Object? then {d.obj} else {}, if d.Object? then d.obj.Repr else {}
  {
    match d case NoConfig => Empty case NotAnObject(text) => Malformed(text) case Object(obj) => Parsed(obj.Tree())
  }

  /** maskOutputSecrets: what is shown of a stored configuration. */
  method MaskOutputSecrets(lower: string -> string, config: Decoded)
    requires config.Object? ==> config.obj.Valid()
    modifies if config.Object? then config.obj.Repr else {}
    ensures config.Object? ==> config.obj.Valid()
    ensures Meaning(config) == Shown(lower, old(Meaning(config)))
    ensures if config.Object? then config.obj.Tree() == Mask(lower, old(config.obj.Tree()))
            else Meaning(config) == old(Meaning(config))
  {
    if config.Object? {
      MaskMapSecrets(lower, config.obj);
    }
  }

  /** mergeMaskedSecrets: what is stored when a configuration is submitted. */
  method MergeMaskedSecrets(existing: Decoded, incoming: Decoded) returns (merged: Decoded)
    requires (existing.Object? ==> existing.obj.Valid()) && (incoming.Object? ==> incoming.obj.Valid())
    requires existing.Object? && incoming.Object? ==> existing.obj.Repr !! incoming.obj.Repr
    modifies if incoming.Object? then incoming.obj.Repr else {}
    ensures merged.Object? ==> merged.obj.Valid()
    ensures Meaning(merged) == Merge(old(Meaning(existing)), old(Meaning(incoming)))
    ensures incoming.NoConfig? ==> merged == existing
    ensures !incoming.NoConfig? ==> merged == incoming
    ensures existing.Object? && incoming.Object? ==>
              merged.obj.Tree() == Restore(old(incoming.obj.Tree()), old(existing.obj.Tree()))
    ensures !(existing.Object? && incoming.Object?) ==>
              Meaning(merged) == if incoming.NoConfig? then old(Meaning(existing)) else old(Meaning(incoming))
  {
    if incoming.NoConfig? {
      return existing;
    }
    if !existing.Object? || !incoming.Object? {
      return incoming;
    }
    RestoreMaskedSecrets(incoming.obj, existing.obj);
    return incoming;
  }
}
