/**
 * JSON values as JavaScript holds them after `JSON.parse`: objects keep their
 * non-numeric properties, the only kind used here, in insertion order (a later
 * duplicate key overwrites the value in place; JavaScript would list
 * integer-like keys first, in ascending order), and lodash's `_.merge`
 * deep-merges one value into another.
 */
module Json {
  import opened Wrappers

  datatype Value =
    | JNull
    | JBool(b: bool)
    | JNum(lexeme: string)       // the number as written; see README for what is not modelled
    | JStr(s: string)
    | JArr(items: seq<Value>)
    | JObj(members: seq<Member>)

  datatype Member = Member(key: string, value: Value)

  /** The mantissa (the part before any exponent) holds no digit other than 0. */
  predicate ZeroMantissa(t: string) {
    t == [] || t[0] == 'e' || t[0] == 'E' || ((t[0] == '-' || t[0] == '0' || t[0] == '.') && ZeroMantissa(t[1..]))
  }

  /** JavaScript truthiness of a parsed JSON value. */
  predicate Truthy(v: Value) {
    match v
    case JNull => false
    case JBool(b) => b
    case JNum(t) => !ZeroMantissa(t)
    case JStr(s) => s != ""
    case _ => true
  }

  predicate HasKey(ms: seq<Member>, k: string) {
    exists i :: 0 <= i < |ms| && ms[i].key == k
  }

  predicate Distinct(ms: seq<Member>) {
    forall i, j :: 0 <= i < j < |ms| ==> ms[i].key != ms[j].key
  }

  /** Every object inside the value has distinct keys, as `JSON.parse` guarantees. */
  ghost predicate WellFormed(v: Value) {
    match v
    case JArr(items) => forall i :: 0 <= i < |items| ==> WellFormed(items[i])
    case JObj(ms) => Distinct(ms) && forall i :: 0 <= i < |ms| ==> WellFormed(ms[i].value)
    case _ => true
  }

  /** `obj[k]` for an own property `k`. */
  function Get(ms: seq<Member>, k: string): (r: Option<Value>)
    ensures r.Some? <==> HasKey(ms, k)
    ensures r.Some? ==> exists i :: 0 <= i < |ms| && ms[i] == Member(k, r.value)
  {
    if ms == [] then None
    else if ms[0].key == k then Some(ms[0].value)
    else
      var r := Get(ms[1..], k);
      assert r.Some? ==> exists i :: 0 <= i < |ms| && ms[i] == Member(k, r.value) by {
        if r.Some? {
          var i :| 0 <= i < |ms[1..]| && ms[1..][i] == Member(k, r.value);
          assert ms[i + 1] == Member(k, r.value);
        }
      }
      assert HasKey(ms, k) ==> HasKey(ms[1..], k) by {
        if HasKey(ms, k) {
          var i :| 0 <= i < |ms| && ms[i].key == k;
          assert ms[1..][i - 1].key == k;
        }
      }
      r
  }

  /** `obj[k] = v`: an existing key keeps its position, a new key goes last. */
  function Put(ms: seq<Member>, k: string, v: Value): (r: seq<Member>)
    ensures Get(r, k) == Some(v)
    ensures forall k' :: k' != k ==> Get(r, k') == Get(ms, k')
  {
    if ms == [] then [Member(k, v)]
    else if ms[0].key == k then [Member(k, v)] + ms[1..]
    else [ms[0]] + Put(ms[1..], k, v)
  }

  lemma HasKeyTail(ms: seq<Member>, k: string)
    requires ms != [] && ms[0].key != k
    ensures HasKey(ms, k) == HasKey(ms[1..], k)
  {
    if HasKey(ms, k) {
      var i :| 0 <= i < |ms| && ms[i].key == k;
      assert ms[1..][i - 1].key == k;
    }
    if HasKey(ms[1..], k) {
      var i :| 0 <= i < |ms[1..]| && ms[1..][i].key == k;
      assert ms[i + 1].key == k;
    }
  }

  /** Overwriting an existing key keeps the number of properties. */
  lemma {:induction false} PutExisting(ms: seq<Member>, k: string, v: Value)
    requires HasKey(ms, k)
    ensures |Put(ms, k, v)| == |ms|
  {
    if ms[0].key != k {
      HasKeyTail(ms, k);
      PutExisting(ms[1..], k, v);
    }
  }

  /** A new key is appended after the existing properties. */
  lemma {:induction false} PutNew(ms: seq<Member>, k: string, v: Value)
    requires !HasKey(ms, k)
    ensures Put(ms, k, v) == ms + [Member(k, v)]
  {
    if ms != [] {
      assert ms[0].key != k;
      HasKeyTail(ms, k);
      PutNew(ms[1..], k, v);
      ConsAppend(ms, Member(k, v));
    }
  }

  lemma ConsAppend(ms: seq<Member>, m: Member)
    requires ms != []
    ensures [ms[0]] + (ms[1..] + [m]) == ms + [m]
  {
    assert ms == [ms[0]] + ms[1..];
  }

  lemma PutShape(ms: seq<Member>, k: string, v: Value)
    ensures HasKey(ms, k) ==> |Put(ms, k, v)| == |ms|
    ensures !HasKey(ms, k) ==> Put(ms, k, v) == ms + [Member(k, v)]
  {
    if HasKey(ms, k) {
      PutExisting(ms, k, v);
    } else {
      PutNew(ms, k, v);
    }
  }

  lemma {:induction false} PutDistinct(ms: seq<Member>, k: string, v: Value)
    requires Distinct(ms)
    ensures Distinct(Put(ms, k, v))
  {
    if ms != [] && ms[0].key != k {
      PutDistinct(ms[1..], k, v);
      var t := Put(ms[1..], k, v);
      forall j | 0 <= j < |t| ensures t[j].key != ms[0].key {
        var x := t[j].key;
        assert HasKey(t, x);
        DistinctHead(ms);
        if x != k {
          assert Get(t, x) == Get(ms[1..], x);
          assert HasKey(ms[1..], x);
        }
      }
    }
  }

  lemma DistinctHead(ms: seq<Member>)
    requires Distinct(ms) && ms != []
    ensures !HasKey(ms[1..], ms[0].key)
  {
    forall i | 0 <= i < |ms[1..]| ensures ms[1..][i].key != ms[0].key {
      assert ms[1..][i] == ms[i + 1];
    }
  }

  /** Follows a path of property names through nested objects. */
  function Lookup(v: Value, path: seq<string>): (r: Option<Value>)
    ensures path == [] ==> r == Some(v)
    ensures r.Some? && path != [] ==> v.JObj? && HasKey(v.members, path[0])
    decreases |path|
  {
    if path == [] then Some(v)
    else match v
      case JObj(ms) =>
        (match Get(ms, path[0])
         case Some(c) => Lookup(c, path[1..])
         case None => None)
      case _ => None
  }

  /** Following `p + q` is following `p`, then `q` from where `p` led. */
  lemma {:induction false} LookupAppend(v: Value, p: seq<string>, q: seq<string>)
    ensures Lookup(v, p + q) == if Lookup(v, p).Some? then Lookup(Lookup(v, p).value, q) else None
    decreases |p|
  {
    if p == [] {
      assert p + q == q;
    } else {
      assert (p + q)[0] == p[0] && (p + q)[1..] == p[1..] + q;
      if v.JObj? && Get(v.members, p[0]).Some? {
        LookupAppend(Get(v.members, p[0]).value, p[1..], q);
      }
    }
  }

  /** What reading a chain of properties yields: a value (`None` is `undefined`), or a `TypeError`. */
  datatype Access = Reads(value: Option<Value>) | ThrowsTypeError

  /**
   * `v.p1.p2...` in JavaScript: reading a property of `undefined` or `null`
   * throws; a property of any other non-object is `undefined` for the
   * non-numeric names used here, other than an array's or a string's
   * `length` (index and `length` properties are not modelled).
   */
  function Read(v: Option<Value>, path: seq<string>): Access
    decreases |path|
  {
    if path == [] then Reads(v)
    else match v
      case None => ThrowsTypeError
      case Some(JNull) => ThrowsTypeError
      case Some(JObj(ms)) => Read(Get(ms, path[0]), path[1..])
      case Some(_) => Read(None, path[1..])
  }

  /** Reading along a path that exists gives the value found there. */
  lemma {:induction false} ReadFollowsLookup(v: Value, path: seq<string>, x: Value)
    requires Lookup(v, path) == Some(x)
    ensures Read(Some(v), path) == Reads(Some(x))
    decreases |path|
  {
    if path != [] {
      ReadFollowsLookup(Get(v.members, path[0]).value, path[1..], x);
    }
  }

  /** A path whose first step is missing from an object and that goes two steps further throws. */
  lemma ReadPastMissing(ms: seq<Member>, path: seq<string>)
    requires |path| >= 2 && !HasKey(ms, path[0])
    ensures Read(Some(JObj(ms)), path) == ThrowsTypeError
  {
  }

  // ---------------------------------------------------------------------
  // lodash `_.merge`
  // ---------------------------------------------------------------------

  function MembersOf(v: Option<Value>): seq<Member> {
    if v.Some? && v.value.JObj? then v.value.members else []
  }

  function ItemsOf(v: Option<Value>): seq<Value> {
    if v.Some? && v.value.JArr? then v.value.items else []
  }

  /**
   * The value `_.merge` stores at a key whose old value is `dest` (None when
   * the key is absent) and whose source value is `src`.
   */
  function MergeInto(dest: Option<Value>, src: Value): (r: Value)
    ensures src.JObj? <==> r.JObj?
    ensures src.JArr? <==> r.JArr?
    ensures src.JObj? ==> forall k :: HasKey(r.members, k) <==> HasKey(MembersOf(dest), k) || HasKey(src.members, k)
    ensures src.JArr? ==> |r.items| == if |src.items| >= |ItemsOf(dest)| then |src.items| else |ItemsOf(dest)|
    ensures !src.JObj? && !src.JArr? ==> r == src
    decreases src
  {
    match src
    case JObj(sm) => JObj(MergeMembers(MembersOf(dest), sm))
    case JArr(si) => JArr(MergeItems(ItemsOf(dest), si))
    case _ => src
  }

  /** Source properties merged, in source order, into the destination's. */
  function MergeMembers(dm: seq<Member>, sm: seq<Member>): (r: seq<Member>)
    ensures forall k :: HasKey(r, k) <==> HasKey(dm, k) || HasKey(sm, k)
    decreases sm
  {
    if sm == [] then dm
    else
      var next := Put(dm, sm[0].key, MergeInto(Get(dm, sm[0].key), sm[0].value));
      assert forall k :: HasKey(next, k) <==> HasKey(dm, k) || k == sm[0].key by {
        forall k ensures HasKey(next, k) <==> HasKey(dm, k) || k == sm[0].key {
          assert Get(next, k).Some? <==> HasKey(next, k);
        }
      }
      assert forall k :: HasKey(sm, k) <==> k == sm[0].key || HasKey(sm[1..], k) by {
        forall k ensures HasKey(sm, k) <==> k == sm[0].key || HasKey(sm[1..], k) {
          if k != sm[0].key {
            HasKeyTail(sm, k);
          }
        }
      }
      MergeMembers(next, sm[1..])
  }

  /** Source array elements merged index by index into the destination array. */
  function MergeItems(di: seq<Value>, si: seq<Value>): (r: seq<Value>)
    ensures |r| == if |si| >= |di| then |si| else |di|
    decreases si
  {
    if si == [] then di
    else [MergeInto(if di == [] then None else Some(di[0]), si[0])]
         + MergeItems(if di == [] then [] else di[1..], si[1..])
  }

  function DigitChar(d: nat): char
    requires d < 10
  {
    "0123456789"[d]
  }

  /** Decimal form of a natural number, as JavaScript prints an array index. */
  function NatToString(n: nat): string
  {
    if n < 10 then [DigitChar(n)] else NatToString(n / 10) + [DigitChar(n % 10)]
  }

  function IndexMembers<T>(xs: seq<T>, f: T -> Value, from: nat): seq<Member>
    decreases |xs|
  {
    if xs == [] then [] else [Member(NatToString(from), f(xs[0]))] + IndexMembers(xs[1..], f, from + 1)
  }

  /**
   * `_.merge(defaults, loaded)` for an object of defaults: an object source is
   * merged key by key; an array or a string contributes its indices as keys;
   * any other source leaves the defaults as they are.
   */
  function MergeConfig(defaults: seq<Member>, loaded: Value): (r: seq<Member>)
    ensures forall k :: HasKey(defaults, k) ==> HasKey(r, k)
    ensures loaded.JObj? ==> forall k :: HasKey(r, k) <==> HasKey(defaults, k) || HasKey(loaded.members, k)
    ensures !loaded.JObj? && !loaded.JArr? && !loaded.JStr? ==> r == defaults
  {
    match loaded
    case JObj(lm) => MergeMembers(defaults, lm)
    case JArr(items) => MergeMembers(defaults, IndexMembers(items, (v: Value) => v, 0))
    case JStr(s) => MergeMembers(defaults, IndexMembers(s, (c: char) => JStr([c]), 0))
    case _ => defaults
  }

  /** The source's own value for `k`, if it has one (used in the merge lemmas). */
  lemma {:induction false} GetMergeMembers(dm: seq<Member>, sm: seq<Member>, k: string)
    requires Distinct(sm)
    ensures Get(MergeMembers(dm, sm), k) ==
              match Get(sm, k)
              case Some(sv) => Some(MergeInto(Get(dm, k), sv))
              case None => Get(dm, k)
    decreases sm
  {
    if sm != [] {
      var m := sm[0];
      var dm' := Put(dm, m.key, MergeInto(Get(dm, m.key), m.value));
      assert Distinct(sm[1..]);
      GetMergeMembers(dm', sm[1..], k);
      if m.key == k {
        assert !HasKey(sm[1..], k);
      }
    }
  }

  /**
   * Loaded values win: wherever the loaded configuration has a value that is
   * not an object, the merged configuration has exactly that value.
   */
  lemma {:induction false} MergeLoadedWins(defaults: Option<Value>, loaded: Value, path: seq<string>, v: Value)
    requires WellFormed(loaded)
    requires Lookup(loaded, path) == Some(v) && !v.JObj? && !v.JArr?
    ensures Lookup(MergeInto(defaults, loaded), path) == Some(v)
    decreases |path|
  {
    if path != [] {
      assert loaded.JObj?;
      var lm := loaded.members;
      var c := Get(lm, path[0]).value;
      assert Lookup(c, path[1..]) == Some(v);
      var dm := MembersOf(defaults);
      GetMergeMembers(dm, lm, path[0]);
      assert MergeInto(defaults, loaded) == JObj(MergeMembers(dm, lm));
      WellFormedMember(lm, path[0]);
      MergeLoadedWins(Get(dm, path[0]), c, path[1..], v);
    }
  }

  /**
   * `loaded` stops short of `path`: along the path it holds only objects, and
   * one of them lacks the next key.
   */
  predicate StopsShort(loaded: Value, path: seq<string>)
    decreases |path|
  {
    path != [] && loaded.JObj? &&
    match Get(loaded.members, path[0])
    case None => true
    case Some(c) => StopsShort(c, path[1..])
  }

  /**
   * Default-only keys survive: a default value at a path the loaded
   * configuration stops short of is still there after the merge.
   */
  lemma {:induction false} MergeDefaultSurvives(defaults: Value, loaded: Value, path: seq<string>, v: Value)
    requires WellFormed(loaded) && StopsShort(loaded, path)
    requires Lookup(defaults, path) == Some(v)
    ensures Lookup(MergeInto(Some(defaults), loaded), path) == Some(v)
    decreases |path|
  {
    assert defaults.JObj?;
    var dm := defaults.members;
    var lm := loaded.members;
    var d := Get(dm, path[0]).value;
    assert Lookup(d, path[1..]) == Some(v);
    GetMergeMembers(dm, lm, path[0]);
    assert MergeInto(Some(defaults), loaded) == JObj(MergeMembers(dm, lm));
    if Get(lm, path[0]).Some? {
      var c := Get(lm, path[0]).value;
      WellFormedMember(lm, path[0]);
      MergeDefaultSurvives(d, c, path[1..], v);
    }
  }

  lemma WellFormedMember(ms: seq<Member>, k: string)
    requires WellFormed(JObj(ms)) && HasKey(ms, k)
    ensures WellFormed(Get(ms, k).value)
  {
    var i :| 0 <= i < |ms| && ms[i] == Member(k, Get(ms, k).value);
    assert WellFormed(ms[i].value);
  }
}
