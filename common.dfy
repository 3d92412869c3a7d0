/** Values shared by every part of the model: optional and failing results,
    the JSON-like values the endpoints exchange with the browser, string
    helpers with Python's and JavaScript's meaning, and a stable sort. */
module Common {

  datatype Option<T> = None | Some(value: T)

  datatype Result<T, E> = Ok(value: T) | Err(error: E)

  /** A JSON value: what a whitelisted endpoint returns and what the
      browser sees as `r.message`. `JNull` stands for Python's `None` and
      JavaScript's `null`/`undefined`. */
  datatype Json =
    | JNull
    | JBool(b: bool)
    | JInt(i: int)
    | JStr(s: string)
    | JList(items: seq<Json>)
    | JObject(fields: map<string, Json>)

  /** Python truthiness (`if x:`): empty strings, lists and dicts are false. */
  predicate PyTruthy(j: Json)
  {
    match j
    case JNull => false
    case JBool(b) => b
    case JInt(i) => i != 0
    case JStr(s) => s != ""
    case JList(xs) => xs != []
    case JObject(m) => m != map[]
  }

  /** JavaScript truthiness (`if (x)`, `x || y`): every array and object is true. */
  predicate JsTruthy(j: Json)
  {
    match j
    case JNull => false
    case JBool(b) => b
    case JInt(i) => i != 0
    case JStr(s) => s != ""
    case JList(_) => true
    case JObject(_) => true
  }

  /** JavaScript `j?.key`: a missing key, or a value that is not an object, reads as null. */
  function Field(j: Json, key: string): Json
  {
    if j.JObject? && key in j.fields then j.fields[key] else JNull
  }

  /** JavaScript `a || b`. */
  function JsOr(a: Json, b: Json): Json
  {
    if JsTruthy(a) then a else b
  }

  // ---------------------------------------------------------------------
  // Strings

  /** `s.lastIndexOf(c)`: the last position holding `c`, or -1. */
  function LastIndexOf(s: string, c: char): (r: int)
    ensures -1 <= r < |s|
    ensures r >= 0 ==> s[r] == c && forall i :: r < i < |s| ==> s[i] != c
    ensures r == -1 ==> forall i :: 0 <= i < |s| ==> s[i] != c
  {
    if |s| == 0 then -1
    else if s[|s| - 1] == c then |s| - 1
    else LastIndexOf(s[..|s| - 1], c)
  }

  predicate IsDigit(c: char)
  {
    '0' <= c <= '9'
  }

  predicate AllDigits(s: string)
  {
    forall i :: 0 <= i < |s| ==> IsDigit(s[i])
  }

  function DigitChar(d: nat): (c: char)
    requires d < 10
    ensures IsDigit(c) && (c as int) - ('0' as int) == d
  {
    (('0' as int) + d) as char
  }

  /** `str(n)` for a non-negative integer: its decimal digits, most significant first. */
  function Decimal(n: nat): (s: string)
    ensures |s| >= 1 && AllDigits(s)
    ensures n < 10 <==> |s| == 1
    ensures n >= 10 ==> s[0] != '0'
    decreases n
  {
    if n < 10 then [DigitChar(n)] else Decimal(n / 10) + [DigitChar(n % 10)]
  }

  /** The number a string of decimal digits denotes (leading zeros allowed). */
  function ParseDecimal(s: string): nat
    requires AllDigits(s)
  {
    if s == [] then 0
    else 10 * ParseDecimal(s[..|s| - 1]) + ((s[|s| - 1] as int) - ('0' as int))
  }

  lemma {:induction false} DecimalRoundTrip(n: nat)
    ensures ParseDecimal(Decimal(n)) == n
    decreases n
  {
    if n >= 10 {
      var s := Decimal(n);
      assert s[..|s| - 1] == Decimal(n / 10);
      DecimalRoundTrip(n / 10);
    }
  }

  /** A string of zeros of the given length. */
  function Zeros(k: nat): (z: string)
    ensures |z| == k && forall i :: 0 <= i < k ==> z[i] == '0'
  {
    if k == 0 then "" else Zeros(k - 1) + "0"
  }

  /** Python `s.zfill(width)` for a string without a sign: pad on the left
      with zeros up to `width` characters, never truncate. */
  function ZFill(s: string, width: nat): (r: string)
    ensures |r| == if |s| >= width then |s| else width
    ensures r[|r| - |s|..] == s
    ensures forall i :: 0 <= i < |r| - |s| ==> r[i] == '0'
  {
    if |s| >= width then s else Zeros(width - |s|) + s
  }

  lemma {:induction false} LeadingZerosDoNotCount(k: nat, s: string)
    requires AllDigits(s)
    ensures AllDigits(Zeros(k) + s) && ParseDecimal(Zeros(k) + s) == ParseDecimal(s)
    decreases |s|
  {
    var z := Zeros(k) + s;
    if s == [] {
      ZerosParse(k);
      assert z == Zeros(k);
    } else {
      assert z[..|z| - 1] == Zeros(k) + s[..|s| - 1];
      LeadingZerosDoNotCount(k, s[..|s| - 1]);
    }
  }

  lemma {:induction false} ZerosParse(k: nat)
    ensures AllDigits(Zeros(k)) && ParseDecimal(Zeros(k)) == 0
  {
    if k > 0 {
      assert Zeros(k)[..k - 1] == Zeros(k - 1);
      ZerosParse(k - 1);
    }
  }

  /** Python slicing `s[:n]`: a negative `n` counts from the end. */
  function PyTake<T>(s: seq<T>, n: int): (r: seq<T>)
    ensures |r| == if n >= 0 then (if n <= |s| then n else |s|)
                   else (if |s| + n >= 0 then |s| + n else 0)
    ensures r == s[..|r|]
  {
    if n >= 0 then (if n <= |s| then s[..n] else s)
    else (if |s| + n >= 0 then s[..|s| + n] else [])
  }

  // ---------------------------------------------------------------------
  // Stable sort, newest (largest key) first: Python's
  // `list.sort(key=..., reverse=True)`, which keeps equal keys in their
  // original order.

  ghost predicate SortedDesc<T>(s: seq<T>, key: T -> int)
  {
    forall i, j :: 0 <= i < j < |s| ==> key(s[i]) >= key(s[j])
  }

  /** Places `x` after every element whose key is at least `key(x)`. */
  function InsertDesc<T>(x: T, s: seq<T>, key: T -> int): (r: seq<T>)
    ensures |r| == |s| + 1
    ensures multiset(r) == multiset(s) + multiset{x}
  {
    if s == [] then [x]
    else if key(s[0]) >= key(x) then
      assert s == [s[0]] + s[1..];
      [s[0]] + InsertDesc(x, s[1..], key)
    else [x] + s
  }

  lemma {:induction false} InsertDescSorted<T>(x: T, s: seq<T>, key: T -> int)
    requires SortedDesc(s, key)
    ensures SortedDesc(InsertDesc(x, s, key), key)
    decreases |s|
  {
    if s != [] && key(s[0]) >= key(x) {
      InsertDescSorted(x, s[1..], key);
      var r := InsertDesc(x, s, key);
      var t := InsertDesc(x, s[1..], key);
      assert r == [s[0]] + t;
      forall k | 0 <= k < |t| ensures key(s[0]) >= key(t[k]) {
        assert t[k] in multiset(t);
        assert t[k] in multiset(s[1..]) + multiset{x};
        if t[k] != x {
          assert t[k] in multiset(s[1..]);
          assert t[k] in s[1..];
          var m :| 0 <= m < |s[1..]| && s[1..][m] == t[k];
          assert s[m + 1] == t[k];
        }
      }
    }
  }

  /** `s` sorted newest first; ties keep their order in `s` (`SortDescStable`). */
  function SortDesc<T>(s: seq<T>, key: T -> int): (r: seq<T>)
    ensures |r| == |s|
    ensures multiset(r) == multiset(s)
  {
    if s == [] then []
    else
      assert s == s[..|s| - 1] + [s[|s| - 1]];
      InsertDesc(s[|s| - 1], SortDesc(s[..|s| - 1], key), key)
  }

  lemma {:induction false} SortDescSorted<T>(s: seq<T>, key: T -> int)
    ensures SortedDesc(SortDesc(s, key), key)
    decreases |s|
  {
    if s != [] {
      SortDescSorted(s[..|s| - 1], key);
      InsertDescSorted(s[|s| - 1], SortDesc(s[..|s| - 1], key), key);
    }
  }

  // ---------------------------------------------------------------------
  // Stability: among elements with equal keys the sort keeps their order

  /** The elements of `s` whose key is `k`, in their order in `s`. */
  function WithKey<T>(s: seq<T>, key: T -> int, k: int): seq<T>
  {
    if s == [] then []
    else (if key(s[0]) == k then [s[0]] else []) + WithKey(s[1..], key, k)
  }

  /** When every element has key `k`, all of them are kept. */
  lemma {:induction false} WithKeyOfAll<T>(s: seq<T>, key: T -> int, k: int)
    requires forall i :: 0 <= i < |s| ==> key(s[i]) == k
    ensures WithKey(s, key, k) == s
  {
    if s != [] {
      WithKeyOfAll(s[1..], key, k);
    }
  }

  /** When no element has key `k`, none is kept. */
  lemma {:induction false} WithKeyOfNone<T>(s: seq<T>, key: T -> int, k: int)
    requires forall i :: 0 <= i < |s| ==> key(s[i]) != k
    ensures WithKey(s, key, k) == []
  {
    if s != [] {
      WithKeyOfNone(s[1..], key, k);
    }
  }

  lemma {:induction false} WithKeyAppend<T>(a: seq<T>, b: seq<T>, key: T -> int, k: int)
    ensures WithKey(a + b, key, k) == WithKey(a, key, k) + WithKey(b, key, k)
  {
    if a == [] {
      assert a + b == b;
    } else {
      var h := if key(a[0]) == k then [a[0]] else [];
      assert (a + b)[0] == a[0];
      assert (a + b)[1..] == a[1..] + b;
      assert WithKey(a + b, key, k) == h + WithKey(a[1..] + b, key, k);
      WithKeyAppend(a[1..], b, key, k);
      ConcatAssoc(h, WithKey(a[1..], key, k), WithKey(b, key, k));
    }
  }

  /** Inserting into a sorted list puts `x` after every element with its key. */
  lemma {:induction false} InsertDescStable<T>(x: T, s: seq<T>, key: T -> int, k: int)
    requires SortedDesc(s, key)
    ensures WithKey(InsertDesc(x, s, key), key, k) == WithKey(s, key, k) + (if key(x) == k then [x] else [])
  {
    if s == [] {
      assert WithKey([x], key, k) == (if key(x) == k then [x] else []) + WithKey([], key, k);
    } else if key(s[0]) >= key(x) {
      SortedTail(s, key);
      InsertDescStable(x, s[1..], key, k);
      HeadThenInsert(x, s, key, k);
    } else {
      assert InsertDesc(x, s, key) == [x] + s;
      assert ([x] + s)[1..] == s;
      if key(x) == k {
        assert forall i :: 0 <= i < |s| ==> key(s[i]) <= key(s[0]);
        WithKeyOfNone(s, key, k);
      }
    }
  }

  lemma SortedTail<T>(s: seq<T>, key: T -> int)
    requires SortedDesc(s, key) && s != []
    ensures SortedDesc(s[1..], key)
  {
    forall i, j | 0 <= i < j < |s| - 1 ensures key(s[1..][i]) >= key(s[1..][j]) {
      assert s[1..][i] == s[i + 1] && s[1..][j] == s[j + 1];
    }
  }

  /** The step of `InsertDescStable` once the tail is done: the head stays
      in front of the tail with `x` inserted. */
  lemma HeadThenInsert<T>(x: T, s: seq<T>, key: T -> int, k: int)
    requires s != [] && key(s[0]) >= key(x)
    requires WithKey(InsertDesc(x, s[1..], key), key, k) == WithKey(s[1..], key, k) + (if key(x) == k then [x] else [])
    ensures WithKey(InsertDesc(x, s, key), key, k) == WithKey(s, key, k) + (if key(x) == k then [x] else [])
  {
    var t := InsertDesc(x, s[1..], key);
    var h := if key(s[0]) == k then [s[0]] else [];
    var extra := if key(x) == k then [x] else [];
    var w := WithKey(s[1..], key, k);
    assert InsertDesc(x, s, key) == [s[0]] + t;
    assert ([s[0]] + t)[0] == s[0] && ([s[0]] + t)[1..] == t;
    assert WithKey([s[0]] + t, key, k) == h + WithKey(t, key, k);
    assert WithKey(s, key, k) == h + w;
    ConcatAssoc(h, w, extra);
  }

  lemma ConcatAssoc<T>(a: seq<T>, b: seq<T>, c: seq<T>)
    ensures a + (b + c) == (a + b) + c
  {
  }

  /** The sort is stable: the elements of each key keep their relative order. */
  lemma {:induction false} SortDescStable<T>(s: seq<T>, key: T -> int, k: int)
    ensures WithKey(SortDesc(s, key), key, k) == WithKey(s, key, k)
    decreases |s|
  {
    if s != [] {
      var init := s[..|s| - 1];
      var last := s[|s| - 1];
      SortDescStable(init, key, k);
      SortDescSorted(init, key);
      assert SortDesc(s, key) == InsertDesc(last, SortDesc(init, key), key);
      StableStep(last, SortDesc(init, key), init, key, k);
      assert init + [last] == s;
    }
  }

  /** One step of `SortDescStable`: inserting the last element into the
      sorted rest keeps the order of each key. */
  lemma StableStep<T>(last: T, sorted: seq<T>, init: seq<T>, key: T -> int, k: int)
    requires SortedDesc(sorted, key) && WithKey(sorted, key, k) == WithKey(init, key, k)
    ensures WithKey(InsertDesc(last, sorted, key), key, k) == WithKey(init + [last], key, k)
  {
    InsertDescStable(last, sorted, key, k);
    WithKeyAppend(init, [last], key, k);
    WithKeyOne(last, key, k);
  }

  lemma WithKeyOne<T>(y: T, key: T -> int, k: int)
    ensures WithKey([y], key, k) == if key(y) == k then [y] else []
  {
    assert [y][1..] == [];
  }

  /** When every key is the same, sorting changes nothing. */
  lemma SortDescOfEqualKeys<T>(s: seq<T>, key: T -> int, k: int)
    requires forall i :: 0 <= i < |s| ==> key(s[i]) == k
    ensures SortDesc(s, key) == s
  {
    var r := SortDesc(s, key);
    SortDescStable(s, key, k);
    forall i | 0 <= i < |r| ensures key(r[i]) == k {
      assert r[i] in multiset(r);
      assert r[i] in s;
    }
    WithKeyOfAll(s, key, k);
    WithKeyOfAll(r, key, k);
  }

  /** `s` back to front. */
  function Reversed<T>(s: seq<T>): (r: seq<T>)
    ensures |r| == |s|
    ensures forall i :: 0 <= i < |s| ==> r[i] == s[|s| - 1 - i]
  {
    if s == [] then [] else [s[|s| - 1]] + Reversed(s[..|s| - 1])
  }

  /** A list whose keys strictly rise comes out of the sort reversed. */
  lemma {:induction false} SortDescOfRisingKeys<T>(s: seq<T>, key: T -> int)
    requires forall i, j :: 0 <= i < j < |s| ==> key(s[i]) < key(s[j])
    ensures SortDesc(s, key) == Reversed(s)
  {
    if s != [] {
      var init := s[..|s| - 1];
      var last := s[|s| - 1];
      SortDescOfRisingKeys(init, key);
      if init != [] {
        assert Reversed(init)[0] == s[|s| - 2];
        assert key(Reversed(init)[0]) < key(last);
      }
      assert InsertDesc(last, Reversed(init), key) == [last] + Reversed(init);
    }
  }
}
