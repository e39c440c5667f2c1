/** Values and helpers shared by every module of the model: optional values, the
    three states of a dictionary lookup, identifiers, Python truthiness, ASCII
    case folding and whitespace stripping, digit strings, and a stable
    descending sort used by the database queries and the metrics report. */
module Common {

  datatype Option<+T> = None | Some(value: T)

  /** A dictionary entry as `dict.get` sees it: the key is missing, the key is
      present with a null value, or the key holds a value. */
  datatype Field<+T> = Missing | Null | Val(value: T)

  /** Identifiers. Game ids are integers or strings; alert documents carry an
      object id generated by the database, which is neither. */
  datatype Key = IntId(n: int) | StrId(s: string) | ObjId(oid: nat)

  /** Python truthiness of an identifier: 0 and "" are false. */
  predicate KeyTruthy(k: Key) {
    match k
    case IntId(n) => n != 0
    case StrId(s) => s != ""
    case ObjId(_) => true
  }

  /** Python truthiness of an optional integer: None and 0 are false. */
  predicate IntTruthy(x: Option<int>) {
    x.Some? && x.value != 0
  }

  /** Python truthiness of an optional string: None and "" are false. */
  predicate StrTruthy(x: Option<string>) {
    x.Some? && x.value != ""
  }

  function FieldToOption<T>(f: Field<T>): (r: Option<T>)
    ensures r.Some? <==> f.Val?
    ensures r.Some? ==> r.value == f.value
  {
    match f
    case Val(v) => Some(v)
    case _ => None
  }

  // ---------------------------------------------------------------------
  // Characters and strings (ASCII approximation of Python's str methods)
  // ---------------------------------------------------------------------

  function LowerChar(c: char): char {
    if 'A' <= c <= 'Z' then (c as int + 32) as char else c
  }

  function UpperChar(c: char): char {
    if 'a' <= c <= 'z' then (c as int - 32) as char else c
  }

  predicate IsLetter(c: char) {
    'a' <= c <= 'z' || 'A' <= c <= 'Z'
  }

  /** `str.lower()` on ASCII letters. */
  function Lower(s: string): (r: string)
    ensures |r| == |s|
    ensures forall i :: 0 <= i < |s| ==> r[i] == LowerChar(s[i])
  {
    seq(|s|, i requires 0 <= i < |s| => LowerChar(s[i]))
  }

  /** `str.startswith(prefix)`. */
  predicate StartsWith(s: string, prefix: string) {
    |prefix| <= |s| && s[..|prefix|] == prefix
  }

  /** Drops a single leading '/', as `command[1:] if command.startswith('/')`. */
  function StripSlash(command: string): (r: string)
    ensures StartsWith(command, "/") ==> "/" + r == command
    ensures !StartsWith(command, "/") ==> r == command
  {
    if StartsWith(command, "/") then command[1..] else command
  }

  predicate IsSpace(c: char) {
    c == ' ' || c == '\t' || c == '\n' || c == '\r' || c == '\U{B}' || c == '\U{C}'
  }

  function StripLeft(s: string): (r: string)
    ensures |r| <= |s| && r == s[|s| - |r|..]
    ensures r == [] || !IsSpace(r[0])
    ensures forall i :: 0 <= i < |s| - |r| ==> IsSpace(s[i])
  {
    if s != [] && IsSpace(s[0]) then StripLeft(s[1..]) else s
  }

  function StripRight(s: string): (r: string)
    ensures |r| <= |s| && r == s[..|r|]
    ensures r == [] || !IsSpace(r[|r| - 1])
    ensures forall i :: |r| <= i < |s| ==> IsSpace(s[i])
  {
    if s != [] && IsSpace(s[|s| - 1]) then StripRight(s[..|s| - 1]) else s
  }

  /** `str.strip()` with no argument. */
  function Strip(s: string): string {
    StripRight(StripLeft(s))
  }

  // ---------------------------------------------------------------------
  // Digit strings
  // ---------------------------------------------------------------------

  predicate IsDigit(c: char) {
    '0' <= c <= '9'
  }

  /** `str.isdigit()`: non-empty and every character a digit. */
  predicate AllDigits(s: string) {
    s != [] && forall i :: 0 <= i < |s| ==> IsDigit(s[i])
  }

  /** The value of a string of decimal digits. */
  function DigitsValue(s: string): nat
    requires forall i :: 0 <= i < |s| ==> IsDigit(s[i])
  {
    if s == [] then 0
    else
      assert IsDigit(s[|s| - 1]);
      DigitsValue(s[..|s| - 1]) * 10 + (s[|s| - 1] as int - '0' as int)
  }

  function DigitChar(d: nat): (c: char)
    requires d < 10
    ensures IsDigit(c) && c as int - '0' as int == d
  {
    ('0' as int + d) as char
  }

  /** Decimal rendering of a natural number, as `str(n)`. */
  function NatToString(n: nat): (r: string)
    ensures AllDigits(r)
  {
    if n < 10 then [DigitChar(n)] else NatToString(n / 10) + [DigitChar(n % 10)]
  }

  /** Reading back a rendered number gives the number. */
  lemma {:induction false} DigitsValueOfNatToString(n: nat)
    ensures DigitsValue(NatToString(n)) == n
  {
    var s := NatToString(n);
    if n >= 10 {
      DigitsValueOfNatToString(n / 10);
      assert s[..|s| - 1] == NatToString(n / 10);
    }
  }

  // ---------------------------------------------------------------------
  // First match in a list, as `next((x for x in xs if p(x)), None)`
  // ---------------------------------------------------------------------

  /** The index of the first element satisfying `p`, if any. */
  function FirstIndex<T>(s: seq<T>, p: T -> bool): (r: Option<nat>)
    ensures r.Some? ==> r.value < |s| && p(s[r.value])
    ensures r.Some? ==> forall j :: 0 <= j < r.value ==> !p(s[j])
    ensures r.None? ==> forall j :: 0 <= j < |s| ==> !p(s[j])
  {
    if s == [] then None
    else if p(s[0]) then Some(0)
    else
      match FirstIndex(s[1..], p)
      case None => None
      case Some(i) => Some(i + 1)
  }

  /** All elements pairwise different. */
  predicate Distinct<T(==)>(s: seq<T>) {
    forall i, j :: 0 <= i < j < |s| ==> s[i] != s[j]
  }

  // ---------------------------------------------------------------------
  // Stable descending sort on an optional integer key (a null key sorts
  // below every number, as in the database's ordering)
  // ---------------------------------------------------------------------

  /** `a` sorts at or before `b` in descending order. */
  predicate KeyGe(a: Option<int>, b: Option<int>) {
    match b
    case None => true
    case Some(y) => a.Some? && a.value >= y
  }

  lemma KeyGeTotal(a: Option<int>, b: Option<int>)
    ensures KeyGe(a, b) || KeyGe(b, a)
  {
  }

  predicate SortedDesc<T>(s: seq<T>, key: T -> Option<int>) {
    forall i, j :: 0 <= i < j < |s| ==> KeyGe(key(s[i]), key(s[j]))
  }

  /** Inserts `x` before the first element whose key it reaches. */
  function InsertDesc<T>(x: T, s: seq<T>, key: T -> Option<int>): (r: seq<T>)
    ensures multiset(r) == multiset(s) + multiset{x}
    ensures |r| == |s| + 1
  {
    if s == [] then [x]
    else if KeyGe(key(x), key(s[0])) then [x] + s
    else
      assert s == [s[0]] + s[1..];
      [s[0]] + InsertDesc(x, s[1..], key)
  }

  lemma {:induction false} InsertDescSorted<T>(x: T, s: seq<T>, key: T -> Option<int>)
    requires SortedDesc(s, key)
    ensures SortedDesc(InsertDesc(x, s, key), key)
    ensures forall y :: y in InsertDesc(x, s, key) ==> y == x || y in s
  {
    if s == [] {
    } else if KeyGe(key(x), key(s[0])) {
      var r := [x] + s;
      forall i, j | 0 <= i < j < |r| ensures KeyGe(key(r[i]), key(r[j])) {
        if i == 0 {
          assert r[j] == s[j - 1];
        } else {
          assert r[i] == s[i - 1] && r[j] == s[j - 1];
        }
      }
    } else {
      var t := s[1..];
      assert SortedDesc(t, key) by {
        forall i, j | 0 <= i < j < |t| ensures KeyGe(key(t[i]), key(t[j])) {
          assert t[i] == s[i + 1] && t[j] == s[j + 1];
        }
      }
      InsertDescSorted(x, t, key);
      var u := InsertDesc(x, t, key);
      var r := [s[0]] + u;
      assert KeyGe(key(s[0]), key(x));
      forall i, j | 0 <= i < j < |r| ensures KeyGe(key(r[i]), key(r[j])) {
        if i == 0 {
          var y := r[j];
          assert y in u;
          if y != x {
            assert y in t;
            var k :| 0 <= k < |t| && t[k] == y;
            assert s[k + 1] == y;
          }
        } else {
          assert r[i] == u[i - 1] && r[j] == u[j - 1];
        }
      }
    }
  }

  /** Insertion sort, descending by `key`; elements with equal keys keep
      their original order. */
  function SortDesc<T>(s: seq<T>, key: T -> Option<int>): (r: seq<T>)
    ensures multiset(r) == multiset(s)
    ensures |r| == |s|
  {
    if s == [] then []
    else
      assert s == [s[0]] + s[1..];
      InsertDesc(s[0], SortDesc(s[1..], key), key)
  }

  lemma {:induction false} SortDescSorted<T>(s: seq<T>, key: T -> Option<int>)
    ensures SortedDesc(SortDesc(s, key), key)
  {
    if s != [] {
      SortDescSorted(s[1..], key);
      InsertDescSorted(s[0], SortDesc(s[1..], key), key);
    }
  }

  /** Sorting keeps exactly the elements it was given. */
  lemma SortDescMembers<T>(s: seq<T>, key: T -> Option<int>)
    ensures forall x :: x in SortDesc(s, key) <==> x in s
  {
    var r := SortDesc(s, key);
    forall x ensures x in r <==> x in s {
      assert x in r <==> x in multiset(r);
      assert x in s <==> x in multiset(s);
    }
  }

  /** Some member of a non-empty set: names a witness for a `:|` choice. */
  ghost function AnyMember<T>(s: set<T>): (x: T)
    requires s != {}
    ensures x in s
  {
    var x :| x in s; x
  }

  /** All values when every element is present; None as soon as one is
      missing. */
  function AllPresent<T>(xs: seq<Option<T>>): (r: Option<seq<T>>)
    ensures r.None? <==> exists k :: 0 <= k < |xs| && xs[k].None?
    ensures r.Some? ==> |r.value| == |xs|
    ensures r.Some? ==> forall k :: 0 <= k < |xs| ==> xs[k] == Some(r.value[k])
  {
    if xs == [] then Some([])
    else
      var rest := AllPresent(xs[1..]);
      if xs[0].None? then None
      else if rest.None? then
        var k :| 0 <= k < |xs[1..]| && xs[1..][k].None?;
        assert xs[k + 1] == xs[1..][k];
        None
      else
        var vs := [xs[0].value] + rest.value;
        assert forall k :: 1 <= k < |xs| ==> vs[k] == rest.value[k - 1] && xs[k] == xs[1..][k - 1];
        Some(vs)
  }

  lemma AllPresentOfValues<T>(xs: seq<Option<T>>, vs: seq<T>)
    requires |xs| == |vs|
    requires forall k :: 0 <= k < |xs| ==> xs[k] == Some(vs[k])
    ensures AllPresent(xs) == Some(vs)
  {
    var r := AllPresent(xs);
    assert forall k :: 0 <= k < |xs| ==> xs[k].Some?;
    assert r.Some?;
    assert |r.value| == |vs|;
    forall k | 0 <= k < |xs|
      ensures r.value[k] == vs[k]
    {
      assert xs[k] == Some(r.value[k]);
    }
    assert r.value == vs;
    assert r == Some(r.value);
  }

  /** The first `n` elements, or all of them when `n` is 0 (a database
      `limit` of 0 means no limit). */
  function Limit<T>(s: seq<T>, n: nat): (r: seq<T>)
    ensures n == 0 ==> r == s
    ensures n > 0 ==> |r| == if n < |s| then n else |s|
    ensures r == s[..|r|]
  {
    if n == 0 || |s| <= n then s else s[..n]
  }
}
