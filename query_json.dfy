/**
 * The query serialiser of kinvey.js: the `mongoOperators` allow-list, the
 * `toJsonReplacer` visitor and `toJson`, which hands the visitor to
 * JSON.stringify. JSON.stringify itself is modelled as the tree walk the
 * ECMAScript standard gives it (section 25.5.2 of ECMA-262,
 * SerializeJSONProperty / SerializeJSONObject / SerializeJSONArray): the
 * visitor is applied to every key/value pair, at every depth, before the
 * value is serialised, and an object member whose visited value is
 * `undefined` is omitted. The output is the JSON tree the text encodes;
 * the text layout itself is not modelled.
 */
module QueryJson {
  import opened Wrappers

  /** The operator allow-list, in source order ("$elemMatch" is listed twice). */
  const MongoOperators: seq<string> := [
    "$gt", "$gte", "$in", "$lt", "$lte", "$ne", "$nin",           // comparison
    "$or", "$and", "$not", "$nor",                                // logical
    "$exists", "$type",                                           // element
    "$mod", "$regex", "$where",                                   // evaluation
    "$geoWithin", "$geoIntersects", "$near", "$nearSphere",       // geospatial
    "$all", "$elemMatch", "$size",                                // array
    "$", "$elemMatch", "$slice"                                   // projection
  ]

  const WindowSentinel := "$WINDOW"
  const DocumentSentinel := "$DOCUMENT"
  const ScopeSentinel := "$SCOPE"

  /**
   * What the host-object tests say of an object: `isWindow` (duck-typed on
   * document/location/alert/setInterval), `document === value`, and
   * `isScope` (duck-typed on $evalAsync/$watch). The tests are independent,
   * so more than one may hold of the same object.
   */
  datatype HostShape = HostShape(windowLike: bool, isDocument: bool, scopeLike: bool)

  /** A JavaScript value handed to the serialiser. Numbers are integers here. */
  datatype Value =
    | Undefined
    | Null
    | Bool(b: bool)
    | Num(n: int)
    | Str(s: string)
    | Arr(elements: seq<Value>)
    | Obj(members: seq<Member>, shape: HostShape)

  datatype Member = Member(key: string, value: Value)

  /** The JSON document that the serialised text denotes. */
  datatype Json =
    | JNull
    | JBool(b: bool)
    | JNum(n: int)
    | JStr(s: string)
    | JArr(elements: seq<Json>)
    | JObj(members: seq<JMember>)

  datatype JMember = JMember(key: string, value: Json)

  /** The result of `toJson`: the document and the indentation JSON.stringify was given. */
  datatype Serialized = Serialized(tree: Json, indent: string)

  predicate IsWindow(v: Value) { v.Obj? && v.shape.windowLike }
  predicate IsDocument(v: Value) { v.Obj? && v.shape.isDocument }
  predicate IsScope(v: Value) { v.Obj? && v.shape.scopeLike }

  /** `key.charAt(0) === '$'`; the empty key has no first character. */
  predicate HasSigil(key: string) { |key| > 0 && key[0] == '$' }

  predicate IsOperator(key: string) { key in MongoOperators }

  /** A key that the visitor never drops. */
  predicate AllowedKey(key: string) { !HasSigil(key) || IsOperator(key) }

  /** The decision `toJsonReplacer` takes for one key/value pair. */
  function Replace(key: string, value: Value): Value {
    if HasSigil(key) then
      (if IsOperator(key) then value else Undefined)
    else if IsWindow(value) then Str(WindowSentinel)
    else if IsDocument(value) then Str(DocumentSentinel)
    else if IsScope(value) then Str(ScopeSentinel)
    else value
  }

  /** The forEach over `mongoOperators` that sets the `isMongo` flag. */
  method IsMongoOperator(key: string) returns (isMongo: bool)
    ensures isMongo <==> IsOperator(key)
  {
    isMongo := false;
    for i := 0 to |MongoOperators|
      invariant isMongo <==> key in MongoOperators[..i]
    {
      if MongoOperators[i] == key {
        isMongo := true;
      }
    }
    assert MongoOperators[..|MongoOperators|] == MongoOperators;
  }

  /** `toJsonReplacer(key, value)`, step by step. */
  method ToJsonReplacer(key: string, value: Value) returns (val: Value)
    ensures val == Replace(key, value)
  {
    val := value;
    if HasSigil(key) {
      var isMongo := IsMongoOperator(key);
      if !isMongo {
        val := Undefined;
      }
    } else if IsWindow(value) {
      val := Str(WindowSentinel);
    } else if IsDocument(value) {
      val := Str(DocumentSentinel);
    } else if IsScope(value) {
      val := Str(ScopeSentinel);
    }
  }

  /** A termination measure for the serialiser: every value has size at least one. */
  function Size(v: Value): (n: nat)
    ensures n >= 1
  {
    match v
    case Arr(es) => 1 + ElementsSize(es)
    case Obj(ms, _) => 1 + MembersSize(ms)
    case _ => 1
  }

  function ElementsSize(es: seq<Value>): nat {
    if es == [] then 0 else Size(es[0]) + ElementsSize(es[1..])
  }

  function MembersSize(ms: seq<Member>): nat {
    if ms == [] then 0 else Size(ms[0].value) + MembersSize(ms[1..])
  }

  /** The string JSON.stringify hands the visitor as the key of array element `i`. */
  function IndexKey(i: nat): (k: string)
    ensures |k| > 0 && '0' <= k[0] <= '9'
  {
    var d := ['0' + (i % 10) as char];
    if i < 10 then d else IndexKey(i / 10) + d
  }

  /** SerializeJSONProperty: visit the pair, then serialise what the visitor returned; None is `undefined`. */
  function SerializeProperty(key: string, value: Value): Option<Json>
    decreases Size(value), 1
  {
    SerializeValue(Replace(key, value))
  }

  /** Serialisation of a value the visitor has already seen; its children are visited in turn. */
  function SerializeValue(v: Value): Option<Json>
    decreases Size(v), 0
  {
    match v
    case Undefined => None
    case Null => Some(JNull)
    case Bool(b) => Some(JBool(b))
    case Num(n) => Some(JNum(n))
    case Str(s) => Some(JStr(s))
    case Arr(es) => Some(JArr(SerializeElements(es, 0)))
    case Obj(ms, _) => Some(JObj(SerializeMembers(ms)))
  }

  /** SerializeJSONArray: element `from + j` is visited under its index; `undefined` is written as null. */
  function SerializeElements(es: seq<Value>, from: nat): (r: seq<Json>)
    decreases ElementsSize(es), 2
    ensures |r| == |es|
  {
    if es == [] then []
    else [SerializeProperty(IndexKey(from), es[0]).GetOr(JNull)] + SerializeElements(es[1..], from + 1)
  }

  /** SerializeJSONObject: each member is visited; one whose result is `undefined` is left out. */
  function SerializeMembers(ms: seq<Member>): (r: seq<JMember>)
    decreases MembersSize(ms), 2
    ensures |r| <= |ms|
    ensures forall j :: 0 <= j < |r| ==> AllowedKey(r[j].key)
  {
    if ms == [] then []
    else
      var rest := SerializeMembers(ms[1..]);
      var p := SerializeProperty(ms[0].key, ms[0].value);
      if p.None? then rest
      else
        assert p == SerializeValue(Replace(ms[0].key, ms[0].value));
        [JMember(ms[0].key, p.value)] + rest
  }

  /** `toJson(obj, pretty)`: undefined stays undefined, anything else goes to JSON.stringify under the root key "". */
  function ToJson(obj: Value, pretty: bool): (r: Option<Serialized>)
    ensures r.None? <==> obj.Undefined?
    ensures r.Some? ==> SerializeProperty("", obj) == Some(r.value.tree)
    ensures r.Some? ==> r.value.indent == (if pretty then "  " else "") && Clean(r.value.tree)
  {
    if obj.Undefined? then None
    else
      var tree := SerializeProperty("", obj);
      DefinedNotDropped("", obj);
      SerializedIsClean(obj);
      Some(Serialized(tree.value, if pretty then "  " else ""))
  }

  // ---------------------------------------------------------------------
  // Reference predicates about the output

  /** No object key anywhere in the document is a `$`-key outside the allow-list. */
  predicate Clean(j: Json) {
    match j
    case JArr(es) => forall i :: 0 <= i < |es| ==> Clean(es[i])
    case JObj(ms) => forall i :: 0 <= i < |ms| ==> AllowedKey(ms[i].key) && Clean(ms[i].value)
    case _ => true
  }

  /** A member reaches the output exactly when its key is allowed and its value is defined. */
  predicate Survives(m: Member) { AllowedKey(m.key) && !m.value.Undefined? }

  function Keys(ms: seq<JMember>): seq<string> {
    if ms == [] then [] else [ms[0].key] + Keys(ms[1..])
  }

  /** The keys of the input object that survive, in input order. */
  function SurvivingKeys(ms: seq<Member>): seq<string> {
    if ms == [] then []
    else (if Survives(ms[0]) then [ms[0].key] else []) + SurvivingKeys(ms[1..])
  }

  // ---------------------------------------------------------------------
  // Properties

  /** A `$`-key is kept exactly when it is an operator, and then its value is passed on untouched. */
  lemma OperatorKeyDecision(key: string, value: Value)
    requires HasSigil(key)
    ensures IsOperator(key) ==> Replace(key, value) == value
    ensures !IsOperator(key) ==> Replace(key, value) == Undefined
    ensures IsOperator(key) ==> SerializeProperty(key, value) == SerializeValue(value)
    ensures !IsOperator(key) ==> SerializeProperty(key, value) == None
  {
  }

  /** Other keys, the root key "" and array index keys included, get sentinels tried in the order window, document, scope. */
  lemma PlainKeyDecision(key: string, value: Value)
    requires !HasSigil(key)
    ensures IsWindow(value) ==> SerializeProperty(key, value) == Some(JStr(WindowSentinel))
    ensures !IsWindow(value) && IsDocument(value) ==> SerializeProperty(key, value) == Some(JStr(DocumentSentinel))
    ensures !IsWindow(value) && !IsDocument(value) && IsScope(value) ==> SerializeProperty(key, value) == Some(JStr(ScopeSentinel))
    ensures !IsWindow(value) && !IsDocument(value) && !IsScope(value) ==> SerializeProperty(key, value) == SerializeValue(value)
  {
  }

  /** Index keys never carry the sigil, so array elements are never dropped. */
  lemma IndexKeyPlain(i: nat)
    ensures !HasSigil(IndexKey(i))
  {
  }

  /** Element `i` of a serialised array is element `i` visited under its index key, undefined written as null. */
  lemma {:induction false} ElementAt(es: seq<Value>, from: nat, i: nat)
    requires i < |es|
    ensures SerializeElements(es, from)[i] == SerializeProperty(IndexKey(from + i), es[i]).GetOr(JNull)
  {
    if i > 0 {
      ElementAt(es[1..], from + 1, i - 1);
      assert es[1..][i - 1] == es[i];
    }
  }

  /**
   * Array elements are never dropped: a window-like, document or scope-like
   * element becomes its sentinel at the same position (tried in that order),
   * an undefined one becomes null, and any other is serialised as it is.
   */
  lemma ElementFate(es: seq<Value>, i: nat)
    requires i < |es|
    ensures var out := SerializeElements(es, 0);
      && (IsWindow(es[i]) ==> out[i] == JStr(WindowSentinel))
      && (!IsWindow(es[i]) && IsDocument(es[i]) ==> out[i] == JStr(DocumentSentinel))
      && (!IsWindow(es[i]) && !IsDocument(es[i]) && IsScope(es[i]) ==> out[i] == JStr(ScopeSentinel))
      && (es[i].Undefined? ==> out[i] == JNull)
      && (!IsWindow(es[i]) && !IsDocument(es[i]) && !IsScope(es[i]) && !es[i].Undefined? ==>
            out[i] == SerializeValue(es[i]).value)
  {
    ElementAt(es, 0, i);
    IndexKeyPlain(i);
    PlainKeyDecision(IndexKey(i), es[i]);
    DefinedNotDropped(IndexKey(i), es[i]);
  }

  /** A property serialises to something exactly when its key is allowed and its value is defined. */
  lemma DefinedNotDropped(key: string, value: Value)
    ensures SerializeProperty(key, value).Some? <==> AllowedKey(key) && !value.Undefined?
  {
  }

  /** The filter applies at every depth: nothing serialised contains a non-operator `$`-key. */
  lemma {:induction false} SerializedIsClean(v: Value)
    ensures SerializeValue(v).Some? ==> Clean(SerializeValue(v).value)
    decreases Size(v), 0
  {
    match v
    case Arr(es) => ElementsClean(es, 0);
    case Obj(ms, _) => MembersClean(ms);
    case _ =>
  }

  lemma {:induction false} PropertyClean(key: string, value: Value)
    ensures SerializeProperty(key, value).Some? ==> Clean(SerializeProperty(key, value).value)
    decreases Size(value), 1
  {
    SerializedIsClean(Replace(key, value));
  }

  lemma {:induction false} ElementsClean(es: seq<Value>, from: nat)
    ensures forall i :: 0 <= i < |es| ==> Clean(SerializeElements(es, from)[i])
    decreases ElementsSize(es), 2
  {
    if es != [] {
      PropertyClean(IndexKey(from), es[0]);
      ElementsClean(es[1..], from + 1);
      var r := SerializeElements(es, from);
      forall i | 0 <= i < |es| ensures Clean(r[i]) {
        if i > 0 {
          assert r[i] == SerializeElements(es[1..], from + 1)[i - 1];
        }
      }
    }
  }

  lemma {:induction false} MembersClean(ms: seq<Member>)
    ensures forall i :: 0 <= i < |SerializeMembers(ms)| ==> Clean(SerializeMembers(ms)[i].value)
    decreases MembersSize(ms), 2
  {
    if ms != [] {
      PropertyClean(ms[0].key, ms[0].value);
      MembersClean(ms[1..]);
    }
  }

  /** The output object has exactly the surviving keys of the input object, in input order. */
  lemma {:induction false} MembersKeepSurvivors(ms: seq<Member>)
    ensures Keys(SerializeMembers(ms)) == SurvivingKeys(ms)
  {
    if ms != [] {
      MembersKeepSurvivors(ms[1..]);
      DefinedNotDropped(ms[0].key, ms[0].value);
      var rest := SerializeMembers(ms[1..]);
      var p := SerializeProperty(ms[0].key, ms[0].value);
      if p.Some? {
        assert Keys([JMember(ms[0].key, p.value)] + rest) == [ms[0].key] + Keys(rest);
      }
    }
  }

  /**
   * Member by member: a surviving member appears in the output with its
   * serialised value (an operator's value with no sentinel substitution),
   * and no member of the output carries a dropped key, whatever its value.
   */
  lemma {:induction false} MemberFate(ms: seq<Member>, i: nat)
    requires i < |ms|
    ensures Survives(ms[i]) ==>
              && SerializeProperty(ms[i].key, ms[i].value).Some?
              && JMember(ms[i].key, SerializeProperty(ms[i].key, ms[i].value).value) in SerializeMembers(ms)
    ensures IsOperator(ms[i].key) && !ms[i].value.Undefined? ==>
              JMember(ms[i].key, SerializeValue(ms[i].value).value) in SerializeMembers(ms)
    ensures !AllowedKey(ms[i].key) ==> forall m :: m in SerializeMembers(ms) ==> m.key != ms[i].key
  {
    DefinedNotDropped(ms[i].key, ms[i].value);
    var out := SerializeMembers(ms);
    if i > 0 {
      MemberFate(ms[1..], i - 1);
      assert ms[1..][i - 1] == ms[i];
      assert forall m :: m in SerializeMembers(ms[1..]) ==> m in out;
    }
    if !AllowedKey(ms[i].key) {
      forall m | m in out ensures m.key != ms[i].key {
        var j :| 0 <= j < |out| && out[j] == m;
      }
    }
  }

  /** The pretty flag selects the indentation and nothing else. */
  lemma PrettyOnlyIndents(obj: Value)
    ensures ToJson(obj, true).None? <==> ToJson(obj, false).None?
    ensures ToJson(obj, true).Some? ==> ToJson(obj, true).value.tree == ToJson(obj, false).value.tree
  {
  }
}
