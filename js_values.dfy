/**
 * The JavaScript values that flow through the request pipeline: parameter
 * values, plain objects (as ordered key/value lists, in for-in order), and the
 * loosely typed parameter bags a configuration holds.
 */
module JsValues {
  import opened Wrappers

  /** The file-like host objects: an fs.ReadStream, a Node Buffer, a browser Blob or File. */
  datatype FileKind = ReadStream | Buffer(content: string) | Blob | WebFile

  /**
   * A parameter value. Numbers are integers. A Date carries both its
   * `toJSON()` text and its `toString()` text, which the host produces.
   */
  datatype Value =
    | Str(s: string)
    | Num(n: int)
    | Bool(b: bool)
    | Date(iso: string, display: string)
    | File(kind: FileKind)
    | Arr(items: seq<Value>)
    | Obj(props: seq<(string, Value)>)
    | Null
    | Undefined

  /** A plain object: its own enumerable properties in for-in order. */
  type Props = seq<(string, Value)>

  /**
   * What a configuration field such as `pathParams` may hold: nothing
   * (undefined), a bare string, or an object.
   */
  datatype Bag = Absent | Bare(text: string) | Object(entries: Props)

  /** JavaScript truthiness (`!!v`). */
  predicate Truthy(v: Value)
  {
    match v
    case Str(s) => s != ""
    case Num(n) => n != 0
    case Bool(b) => b
    case Null => false
    case Undefined => false
    case _ => true
  }

  /** `v === null || v === undefined` */
  predicate IsNil(v: Value)
  {
    v.Null? || v.Undefined?
  }

  predicate BagTruthy(b: Bag)
  {
    match b
    case Absent => false
    case Bare(t) => t != ""
    case Object(_) => true
  }

  /** The own enumerable properties of a bag; a bare string is taken to have none. */
  function BagEntries(b: Bag): Props
  {
    if b.Object? then b.entries else []
  }

  /** A string-valued field that may be undefined, as `+` renders it. */
  function TextOf(o: Option<string>): string
  {
    if o.Some? then o.value else "undefined"
  }

  predicate DistinctKeys(p: Props)
  {
    forall i, j :: 0 <= i < j < |p| ==> p[i].0 != p[j].0
  }

  /** `p[key]` when `key` is an own property (the first entry with that key). */
  function Lookup(p: Props, key: string): (r: Option<Value>)
    ensures r.Some? <==> exists i :: 0 <= i < |p| && p[i].0 == key
  {
    if p == [] then None
    else if p[0].0 == key then Some(p[0].1)
    else Lookup(p[1..], key)
  }

  /** `obj[key] = v`: an existing property keeps its place, a new one goes last. */
  function Assign(p: Props, key: string, v: Value): (r: Props)
    ensures Lookup(r, key) == Some(v)
    ensures forall k :: k != key ==> Lookup(r, k) == Lookup(p, k)
    ensures Lookup(p, key).Some? ==> |r| == |p|
    ensures Lookup(p, key).Some? ==> forall i :: 0 <= i < |p| ==> r[i].0 == p[i].0
    ensures Lookup(p, key).None? ==> r == p + [(key, v)]
  {
    if p == [] then [(key, v)]
    else if p[0].0 == key then [(key, v)] + p[1..]
    else [p[0]] + Assign(p[1..], key, v)
  }

  /** Assignment adds no entry but the assigned one, and keeps keys distinct. */
  lemma {:induction false} AssignShape(p: Props, key: string, v: Value)
    ensures forall i :: 0 <= i < |Assign(p, key, v)| ==> Assign(p, key, v)[i] == (key, v) || Assign(p, key, v)[i] in p
    ensures DistinctKeys(p) ==> DistinctKeys(Assign(p, key, v))
  {
    if p != [] && p[0].0 != key {
      var tail := Assign(p[1..], key, v);
      AssignShape(p[1..], key, v);
      assert Assign(p, key, v) == [p[0]] + tail;
      forall i | 0 <= i < |tail| ensures tail[i] == (key, v) || tail[i] in p {
        if tail[i] != (key, v) {
          assert tail[i] in p[1..];
        }
      }
      if DistinctKeys(p) {
        assert DistinctKeys(p[1..]) by {
          forall i, j | 0 <= i < j < |p[1..]| ensures p[1..][i].0 != p[1..][j].0 {
            assert p[1..][i] == p[i + 1] && p[1..][j] == p[j + 1];
          }
        }
        forall j | 0 <= j < |tail| ensures tail[j].0 != p[0].0 {
          if tail[j] != (key, v) {
            var m :| 0 <= m < |p[1..]| && p[1..][m] == tail[j];
            assert p[m + 1] == tail[j];
          }
        }
        var r := Assign(p, key, v);
        forall i, j | 0 <= i < j < |r| ensures r[i].0 != r[j].0 {
          if i > 0 {
            assert r[i] == tail[i - 1] && r[j] == tail[j - 1];
          } else {
            assert r[j] == tail[j - 1];
          }
        }
      }
    } else if p != [] && DistinctKeys(p) {
      var r := Assign(p, key, v);
      forall i, j | 0 <= i < j < |r| ensures r[i].0 != r[j].0 {
        assert r[j] == p[j];
        if i > 0 {
          assert r[i] == p[i];
        }
      }
    }
  }

  /** `Object.assign(p, src)`: every property of `src` assigned in order. */
  function AssignAll(p: Props, src: Props): (r: Props)
    decreases |src|
  {
    if src == [] then p else AssignAll(Assign(p, src[0].0, src[0].1), src[1..])
  }

  lemma {:induction false} AssignAllLookup(p: Props, src: Props, k: string)
    ensures Lookup(AssignAll(p, src), k) == if LastValue(src, k).Some? then LastValue(src, k) else Lookup(p, k)
    decreases |src|
  {
    if src != [] {
      AssignAllLookup(Assign(p, src[0].0, src[0].1), src[1..], k);
    }
  }

  /** The value of the last entry with key `k` (what `Object.assign` leaves behind). */
  function LastValue(p: Props, k: string): Option<Value>
  {
    if p == [] then None
    else if LastValue(p[1..], k).Some? then LastValue(p[1..], k)
    else if p[0].0 == k then Some(p[0].1)
    else None
  }

  lemma {:induction false} LastValueDistinct(p: Props, k: string)
    requires DistinctKeys(p)
    ensures LastValue(p, k) == Lookup(p, k)
  {
    if p != [] {
      assert DistinctKeys(p[1..]) by {
        forall i, j | 0 <= i < j < |p[1..]| ensures p[1..][i].0 != p[1..][j].0 {
          assert p[1..][i] == p[i + 1] && p[1..][j] == p[j + 1];
        }
      }
      LastValueDistinct(p[1..], k);
    }
  }

  /** `Object.assign` of an object with distinct keys makes each of its values readable. */
  lemma AssignAllDistinct(p: Props, src: Props, k: string)
    requires DistinctKeys(src)
    ensures Lookup(AssignAll(p, src), k) == if Lookup(src, k).Some? then Lookup(src, k) else Lookup(p, k)
  {
    AssignAllLookup(p, src, k);
    LastValueDistinct(src, k);
  }

  // ---------------------------------------------------------------------
  // String conversion

  function DigitChar(d: int): char
    requires 0 <= d < 10
  {
    "0123456789"[d]
  }

  /** The decimal numeral of a natural number, without leading zeros. */
  function NatToDecimal(n: nat): (s: string)
    ensures |s| >= 1
    ensures forall i :: 0 <= i < |s| ==> '0' <= s[i] <= '9'
    ensures n > 0 ==> s[0] != '0'
  {
    if n < 10 then [DigitChar(n)] else NatToDecimal(n / 10) + [DigitChar(n % 10)]
  }

  /** `Number.prototype.toString()` on an integer. */
  function IntToDecimal(i: int): (s: string)
    ensures ParseInt(s) == i
  {
    if i < 0 then NegativeRoundTrip(-i); "-" + NatToDecimal(-i)
    else NonNegativeRoundTrip(i); NatToDecimal(i)
  }

  function DigitValue(c: char): int
  {
    (c as int) - ('0' as int)
  }

  /** The partner of `NatToDecimal`: reads a string of decimal digits. */
  function ParseDecimal(s: string): int
  {
    if s == [] then 0 else ParseDecimal(s[..|s| - 1]) * 10 + DigitValue(s[|s| - 1])
  }

  /** Reading back `IntToDecimal`. */
  function ParseInt(s: string): int
  {
    if |s| > 0 && s[0] == '-' then -ParseDecimal(s[1..]) else ParseDecimal(s)
  }

  lemma {:induction false} NatDecimalRoundTrip(n: nat)
    ensures ParseDecimal(NatToDecimal(n)) == n
  {
    if n >= 10 {
      var s := NatToDecimal(n / 10) + [DigitChar(n % 10)];
      assert s[..|s| - 1] == NatToDecimal(n / 10);
      NatDecimalRoundTrip(n / 10);
    } else {
      assert NatToDecimal(n)[..0] == [];
    }
  }

  lemma NonNegativeRoundTrip(n: nat)
    ensures ParseInt(NatToDecimal(n)) == n
  {
    var s := NatToDecimal(n);
    NatDecimalRoundTrip(n);
    assert s[0] != '-';
  }

  lemma NegativeRoundTrip(n: nat)
    ensures ParseInt("-" + NatToDecimal(n)) == -(n as int)
  {
    var s := "-" + NatToDecimal(n);
    NatDecimalRoundTrip(n);
    assert s[1..] == NatToDecimal(n);
  }

  /** `String(v)`: the conversion `+`, `Array.prototype.join` and `encodeURIComponent` apply. */
  function ToJsString(v: Value): string
  {
    match v
    case Str(s) => s
    case Num(n) => IntToDecimal(n)
    case Bool(b) => if b then "true" else "false"
    case Date(_, display) => display
    case File(kind) =>
      (match kind
       case ReadStream => "[object Object]"
       case Buffer(content) => content
       case Blob => "[object Blob]"
       case WebFile => "[object File]")
    case Arr(items) => JoinItems(items)
    case Obj(_) => "[object Object]"
    case Null => "null"
    case Undefined => "undefined"
  }

  /** `items.join(',')`: null and undefined elements contribute the empty string. */
  function JoinItems(items: seq<Value>): string
    decreases items
  {
    if items == [] then ""
    else
      var head := if IsNil(items[0]) then "" else ToJsString(items[0]);
      if |items| == 1 then head else head + "," + JoinItems(items[1..])
  }
}
