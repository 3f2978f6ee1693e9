/** ULID text order against time order (common/fields.py). */
module Ulid {
  const TIME_CHARS: nat := 10
  const RANDOM_CHARS: nat := 16

  /** The Crockford Base32 alphabet: no I, L, O or U. */
  predicate IsCrockford(c: char) {
    '0' <= c <= '9' || 'A' <= c <= 'H' || 'J' <= c <= 'K' || 'M' <= c <= 'N' || 'P' <= c <= 'T' || 'V' <= c <= 'Z'
  }

  predicate IsText(s: string) {
    forall i :: 0 <= i < |s| ==> IsCrockford(s[i])
  }

  predicate IsValidUlid(s: string) {
    |s| == TIME_CHARS + RANDOM_CHARS && IsText(s)
  }

  function Digit(c: char): (d: nat)
    requires IsCrockford(c)
    ensures d < 32
  {
    var n := c as int;
    if c <= '9' then n - '0' as int
    else if c <= 'H' then n - 'A' as int + 10
    else if c <= 'K' then n - 'J' as int + 18
    else if c <= 'N' then n - 'M' as int + 20
    else if c <= 'T' then n - 'P' as int + 22
    else n - 'V' as int + 27
  }

  function Symbol(d: nat): (c: char)
    requires d < 32
    ensures IsCrockford(c) && Digit(c) == d
  {
    (if d < 10 then d + '0' as int
     else if d < 18 then d - 10 + 'A' as int
     else if d < 20 then d - 18 + 'J' as int
     else if d < 22 then d - 20 + 'M' as int
     else if d < 27 then d - 22 + 'P' as int
     else d - 27 + 'V' as int) as char
  }

  function Pow32(n: nat): (p: nat)
    ensures p > 0
  {
    if n == 0 then 1 else 32 * Pow32(n - 1)
  }

  /** The number a Base32 text denotes, most significant digit first. */
  function Value(s: string): (v: nat)
    requires IsText(s)
    ensures v < Pow32(|s|)
  {
    if s == "" then 0 else 32 * Value(s[..|s| - 1]) + Digit(s[|s| - 1])
  }

  /** Fixed-width encoding of a number that fits. */
  function Encode(v: nat, width: nat): (s: string)
    requires v < Pow32(width)
    ensures |s| == width && IsText(s)
  {
    if width == 0 then "" else Encode(v / 32, width - 1) + [Symbol(v % 32)]
  }

  /** Bytewise string comparison, as the database orders ids. */
  predicate Less(s: string, t: string) {
    if t == "" then false
    else if s == "" then true
    else s[0] < t[0] || (s[0] == t[0] && Less(s[1..], t[1..]))
  }

  function Zeros(n: nat): (s: string)
    ensures |s| == n && forall i :: 0 <= i < n ==> s[i] == '0'
  {
    seq(n, _ => '0')
  }

  function Millis(micros: nat): nat { micros / 1000 }

  /** `min_ulid_at`, for an instant given in microseconds since the epoch. */
  function MinUlidAt(micros: nat): (s: string)
    requires Millis(micros) < Pow32(TIME_CHARS)
    ensures IsValidUlid(s)
  {
    Encode(Millis(micros), TIME_CHARS) + Zeros(RANDOM_CHARS)
  }

  function TimeField(id: string): nat
    requires IsValidUlid(id)
  {
    Value(id[..TIME_CHARS])
  }

  lemma {:induction false} EncodeRoundTrips(v: nat, width: nat)
    requires v < Pow32(width)
    ensures Value(Encode(v, width)) == v
  {
    if width > 0 {
      EncodeRoundTrips(v / 32, width - 1);
      assert Encode(v, width)[..width - 1] == Encode(v / 32, width - 1);
    }
  }

  /** Less is the dictionary order: a shorter prefix first, or the smaller character where two texts part. */
  lemma {:induction false} LessIsDictionary(s: string, t: string)
    ensures Less(s, t) <==> exists i: nat :: PartsAt(s, t, i)
  {
    if s != "" && t != "" && s[0] == t[0] {
      LessIsDictionary(s[1..], t[1..]);
      if i: nat :| PartsAt(s[1..], t[1..], i) {
        assert s[..i + 1] == [s[0]] + s[1..][..i] && t[..i + 1] == [t[0]] + t[1..][..i];
        assert PartsAt(s, t, i + 1);
      }
      if i: nat :| PartsAt(s, t, i) {
        assert i > 0;
        assert s[1..][..i - 1] == s[..i][1..] && t[1..][..i - 1] == t[..i][1..];
        assert PartsAt(s[1..], t[1..], i - 1);
      }
    } else if Less(s, t) {
      assert PartsAt(s, t, 0);
    }
  }

  predicate PartsAt(s: string, t: string, i: nat) {
    i <= |s| && i < |t| && s[..i] == t[..i] && (i == |s| || s[i] < t[i])
  }

  lemma {:induction false} LessSplits(s: string, t: string, n: nat)
    requires |s| == |t| && n <= |s|
    ensures Less(s, t) <==> Less(s[..n], t[..n]) || (s[..n] == t[..n] && Less(s[n..], t[n..]))
  {
    if n > 0 {
      LessSplits(s[1..], t[1..], n - 1);
      assert s[..n][1..] == s[1..][..n - 1] && t[..n][1..] == t[1..][..n - 1];
      assert s[n..] == s[1..][n - 1..] && t[n..] == t[1..][n - 1..];
      assert s[..n] == [s[0]] + s[1..][..n - 1] && t[..n] == [t[0]] + t[1..][..n - 1];
    } else {
      assert s[0..] == s && t[0..] == t;
    }
  }

  /** Equal-width texts compare as strings exactly as their numbers compare. */
  lemma {:induction false} OrderIsNumeric(s: string, t: string)
    requires |s| == |t| && IsText(s) && IsText(t)
    ensures Less(s, t) <==> Value(s) < Value(t)
    ensures s == t <==> Value(s) == Value(t)
  {
    var n := |s|;
    if n > 0 {
      OrderIsNumeric(s[..n - 1], t[..n - 1]);
      LessSplits(s, t, n - 1);
      assert s == s[..n - 1] + [s[n - 1]] && t == t[..n - 1] + [t[n - 1]];
      assert s[n - 1..] == [s[n - 1]] && t[n - 1..] == [t[n - 1]];
      SymbolOrder(s[n - 1], t[n - 1]);
    }
  }

  lemma SymbolOrder(c: char, d: char)
    requires IsCrockford(c) && IsCrockford(d)
    ensures Less([c], [d]) <==> Digit(c) < Digit(d)
    ensures c == d <==> Digit(c) == Digit(d)
  {
    assert [c][0] == c && [d][0] == d;
  }

  lemma {:induction false} NothingBelowZeros(s: string, n: nat)
    requires |s| == n && IsText(s)
    ensures !Less(s, Zeros(n))
  {
    if n > 0 {
      assert Zeros(n)[1..] == Zeros(n - 1);
      NothingBelowZeros(s[1..], n - 1);
    }
  }

  /** The id cutoff is exact: the ids below it are those whose millisecond field is earlier. */
  lemma {:induction false} CutoffIsExact(id: string, micros: nat)
    requires IsValidUlid(id) && Millis(micros) < Pow32(TIME_CHARS)
    ensures Less(id, MinUlidAt(micros)) <==> TimeField(id) < Millis(micros)
  {
    var cutoff := MinUlidAt(micros);
    assert cutoff[..TIME_CHARS] == Encode(Millis(micros), TIME_CHARS);
    assert cutoff[TIME_CHARS..] == Zeros(RANDOM_CHARS);
    LessSplits(id, cutoff, TIME_CHARS);
    NothingBelowZeros(id[TIME_CHARS..], RANDOM_CHARS);
    OrderIsNumeric(id[..TIME_CHARS], cutoff[..TIME_CHARS]);
    EncodeRoundTrips(Millis(micros), TIME_CHARS);
  }

  /** The cutoff is itself the least id of its own millisecond. */
  lemma {:induction false} CutoffIsLeastOfItsMillisecond(id: string, micros: nat)
    requires IsValidUlid(id) && Millis(micros) < Pow32(TIME_CHARS)
    ensures TimeField(MinUlidAt(micros)) == Millis(micros)
    ensures TimeField(id) == Millis(micros) ==> !Less(id, MinUlidAt(micros))
  {
    CutoffIsExact(id, micros);
    assert MinUlidAt(micros)[..TIME_CHARS] == Encode(Millis(micros), TIME_CHARS);
    EncodeRoundTrips(Millis(micros), TIME_CHARS);
  }
}
