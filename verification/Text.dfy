/** Option values, whitespace trimming and decimal numerals: the few string
    operations the modelled code relies on. */
module Text {
  datatype Option<+T> = None | Some(value: T) {
    function GetOr(default: T): T {
      if Some? then value else default
    }
  }

  datatype Result<+T, +E> = Ok(value: T) | Err(error: E)

  function Max(a: int, b: int): (m: int)
    ensures m >= a && m >= b && (m == a || m == b)
  {
    if a >= b then a else b
  }

  function Take<T>(s: seq<T>, n: nat): (r: seq<T>)
    ensures r <= s && |r| <= n && (|s| > n ==> |r| == n) && (|s| <= n ==> r == s)
  {
    if |s| <= n then s else s[..n]
  }

  predicate NoRepeats<T(==)>(s: seq<T>) {
    forall i, j | 0 <= i < j < |s| :: s[i] != s[j]
  }

  predicate Increasing(places: seq<nat>) {
    forall j, k | 0 <= j < k < |places| :: places[j] < places[k]
  }

  /** A later place goes to the end. */
  lemma {:induction false} OneMorePlace(places: seq<nat>, p: nat)
    requires Increasing(places) && forall q: nat | q in places :: q < p
    ensures Increasing(places + [p])
    ensures forall q: nat :: q in places + [p] <==> q in places || q == p
  {
    assert forall j | 0 <= j < |places| :: places[j] in places;
  }

  /** The elements chosen are those at these places. */
  ghost predicate Picks<T>(chosen: seq<T>, all: seq<T>, places: seq<nat>) {
    && |chosen| == |places|
    && forall j | 0 <= j < |places| :: places[j] < |all| && chosen[j] == all[places[j]]
  }

  lemma {:induction false} OneMorePick<T>(chosen: seq<T>, all: seq<T>, places: seq<nat>)
    requires all != [] && Picks(chosen, all[..|all| - 1], places)
    ensures Picks(chosen, all, places)
    ensures Picks(chosen + [all[|all| - 1]], all, places + [|all| - 1])
  {}

  /** The last element is chosen on top of those before it, or it is not. */
  lemma {:induction false} MorePlaces<T>(chosen: seq<T>, all: seq<T>, places: seq<nat>, also: bool)
    returns (more: seq<nat>)
    requires all != [] && Picks(chosen, all[..|all| - 1], places) && Increasing(places)
    ensures Increasing(more) && Picks(if also then chosen + [all[|all| - 1]] else chosen, all, more)
    ensures forall q: nat {:trigger q in more} :: q in more <==> q in places || (also && q == |all| - 1)
  {
    OneMorePick(chosen, all, places);
    more := if also then places + [|all| - 1] else places;
    forall j | 0 <= j < |places| ensures places[j] < |all| - 1 {
    }
    assert forall q: nat | q in places :: q < |all| - 1;
    OneMorePlace(places, |all| - 1);
  }

  // ----- trimming -----

  /** The characters Python's str.strip() removes. */
  predicate IsSpace(c: char) {
    || '\t' <= c <= '\r'
    || '\U{1c}' <= c <= ' '
    || c in {'\U{85}', '\U{a0}', '\U{1680}', '\U{2028}', '\U{2029}', '\U{202f}', '\U{205f}', '\U{3000}'}
    || '\U{2000}' <= c <= '\U{200a}'
  }

  function StripLeft(s: string): (r: string)
    ensures r == "" || !IsSpace(r[0])
    ensures s != "" && !IsSpace(s[|s| - 1]) ==> r != "" && r[|r| - 1] == s[|s| - 1]
  {
    if s == "" || !IsSpace(s[0]) then s else StripLeft(s[1..])
  }

  function StripRight(s: string): (r: string)
    ensures r == "" || !IsSpace(r[|r| - 1])
  {
    if s == "" || !IsSpace(s[|s| - 1]) then s else StripRight(s[..|s| - 1])
  }

  function Strip(s: string): (r: string)
    ensures r == "" || (!IsSpace(r[0]) && !IsSpace(r[|r| - 1]))
  {
    StripLeft(StripRight(s))
  }

  /** The characters counted as space, by code point. */
  lemma SpacesAre(c: char)
    ensures IsSpace(c) <==>
      || 9 <= c as int <= 13 || 28 <= c as int <= 32 || c as int == 133 || c as int == 160 || c as int == 5760
      || 8192 <= c as int <= 8202 || c as int == 8232 || c as int == 8233 || c as int == 8239 || c as int == 8287
      || c as int == 12288
  {}

  /** Only trailing space goes. */
  lemma {:induction false} StripRightCuts(s: string)
    ensures StripRight(s) <= s
    ensures forall k | |StripRight(s)| <= k < |s| :: IsSpace(s[k])
  {
    if s != "" && IsSpace(s[|s| - 1]) {
      StripRightCuts(s[..|s| - 1]);
    }
  }

  /** Only leading space goes. */
  lemma {:induction false} StripLeftCuts(s: string) returns (from: nat)
    ensures from <= |s| && StripLeft(s) == s[from..]
    ensures forall k | 0 <= k < from :: IsSpace(s[k])
  {
    from := 0;
    if s != "" && IsSpace(s[0]) {
      var more := StripLeftCuts(s[1..]);
      from := more + 1;
      forall k | 0 <= k < from ensures IsSpace(s[k]) {
        assert k > 0 ==> s[1..][k - 1] == s[k];
      }
    }
  }

  /** What is trimmed off both ends is space, and what is left neither begins nor ends with any. */
  lemma {:induction false} StripCuts(s: string) returns (from: nat, to: nat)
    ensures from <= to <= |s| && Strip(s) == s[from..to]
    ensures forall k | 0 <= k < from || to <= k < |s| :: IsSpace(s[k])
    ensures from < to ==> !IsSpace(s[from]) && !IsSpace(s[to - 1])
  {
    var right := StripRight(s);
    StripRightCuts(s);
    from := StripLeftCuts(right);
    to := |right|;
    assert right == s[..to] && Strip(s) == right[from..] == s[from..to];
    forall k | 0 <= k < from || to <= k < |s| ensures IsSpace(s[k]) {
      if k < from {
        assert s[k] == right[k];
      }
    }
  }

  lemma {:induction false} StripIdempotent(s: string)
    ensures Strip(Strip(s)) == Strip(s)
  {}

  // ----- decimal numerals -----

  predicate IsDigit(c: char) {
    '0' <= c <= '9'
  }

  predicate AllDigits(s: string) {
    s == "" || (IsDigit(s[|s| - 1]) && AllDigits(s[..|s| - 1]))
  }

  function Numeral(n: nat): (r: string)
    ensures r != "" && IsDigit(r[0]) && AllDigits(r) && ':' !in r
  {
    if n < 10 then
      var r := ["0123456789"[n]];
      assert r[..0] == "";
      r
    else
      var front := Numeral(n / 10);
      var r := front + ["0123456789"[n % 10]];
      assert r[..|front|] == front;
      r
  }

  /** Python's str() of an integer. */
  function Decimal(n: int): (r: string)
    ensures ':' !in r
  {
    if n < 0 then "-" + Numeral(-n) else Numeral(n)
  }

  function NumeralValue(s: string): nat
    requires AllDigits(s)
  {
    if s == "" then 0
    else 10 * NumeralValue(s[..|s| - 1]) + (s[|s| - 1] as int - '0' as int)
  }

  /** Python's int() on a plain numeral; None stands for the ValueError. */
  function ParseInt(s: string): Option<int> {
    if s == "" then None
    else if s[0] != '-' then (if AllDigits(s) then Some(NumeralValue(s)) else None)
    else if |s| > 1 && AllDigits(s[1..]) then Some(0 - NumeralValue(s[1..]))
    else None
  }

  lemma {:induction false} NumeralRoundTrip(n: nat)
    ensures NumeralValue(Numeral(n)) == n
  {
    if n >= 10 {
      var r := Numeral(n);
      NumeralRoundTrip(n / 10);
      assert r[..|r| - 1] == Numeral(n / 10);
    } else {
      assert Numeral(n)[..0] == "";
    }
  }

  lemma {:induction false} ParsePlain(s: string)
    requires s != "" && AllDigits(s) && IsDigit(s[0])
    ensures ParseInt(s) == Some(NumeralValue(s))
  {}

  lemma {:induction false} ParseNegative(s: string)
    requires s != "" && AllDigits(s)
    ensures ParseInt("-" + s) == Some(0 - NumeralValue(s))
  {
    assert ("-" + s)[1..] == s;
  }

  lemma DecimalRoundTrip(n: int)
    ensures ParseInt(Decimal(n)) == Some(n)
  {
    var digits := Numeral(if n < 0 then -n else n);
    NumeralRoundTrip(if n < 0 then -n else n);
    ParsePlain(digits);
    ParseNegative(digits);
  }

  // ----- splitting at colons -----

  /** The last element of s.split(":"). */
  function LastSegment(s: string): string {
    if s == "" || s[|s| - 1] == ':' then ""
    else LastSegment(s[..|s| - 1]) + [s[|s| - 1]]
  }

  lemma {:induction false} LastSegmentAlone(s: string)
    requires ':' !in s
    ensures LastSegment(s) == s
  {
    if s != "" {
      LastSegmentAlone(s[..|s| - 1]);
    }
  }

  /** A colon-free tail survives the split, however many colons precede it. */
  lemma {:induction false} LastSegmentOfJoin(head: string, tail: string)
    requires ':' !in tail
    ensures LastSegment(head + ":" + tail) == tail
  {
    var s := head + ":" + tail;
    if tail != "" {
      assert s[..|s| - 1] == head + ":" + tail[..|tail| - 1];
      LastSegmentOfJoin(head, tail[..|tail| - 1]);
    }
  }
}
