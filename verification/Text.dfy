/** The few Go string operations the other modules need.

    A Go string is modelled by its code points.  Every character the scanners
    and filters test for is ASCII, and no byte of a multi-byte UTF-8 sequence
    is ASCII, so walking code points and walking bytes visit the same tests. */
module Text {
  datatype Option<+T> = None | Some(value: T)

  /** White space as unicode.IsSpace defines it. */
  predicate IsSpace(c: char) {
    || '\t' <= c <= '\r' || c == ' '
    || c == '\U{0085}' || c == '\U{00A0}' || c == '\U{1680}'
    || '\U{2000}' <= c <= '\U{200A}'
    || c == '\U{2028}' || c == '\U{2029}' || c == '\U{202F}' || c == '\U{205F}' || c == '\U{3000}'
  }

  predicate Blank(s: string) {
    forall i | 0 <= i < |s| :: IsSpace(s[i])
  }

  predicate OccursAt(s: string, t: string, k: nat) {
    k + |t| <= |s| && s[k..k + |t|] == t
  }

  /** t occurs in s as one contiguous piece. */
  predicate Occurs(s: string, t: string) {
    exists k: nat | k <= |s| :: OccursAt(s, t, k)
  }

  function SkipSpaces(s: string, i: nat): (j: nat)
    requires i <= |s|
    ensures i <= j <= |s| && (forall k | i <= k < j :: IsSpace(s[k]))
    ensures j < |s| ==> !IsSpace(s[j])
    decreases |s| - i
  {
    if i < |s| && IsSpace(s[i]) then SkipSpaces(s, i + 1) else i
  }

  function DropSpaces(s: string, n: nat): (m: nat)
    requires n <= |s|
    ensures m <= n && (forall k | m <= k < n :: IsSpace(s[k]))
    ensures m > 0 ==> !IsSpace(s[m - 1])
  {
    if n > 0 && IsSpace(s[n - 1]) then DropSpaces(s, n - 1) else n
  }

  function TrimLeft(s: string): string { s[SkipSpaces(s, 0)..] }

  function TrimRight(s: string): string { s[..DropSpaces(s, |s|)] }

  /** strings.TrimSpace */
  function TrimSpace(s: string): string { TrimRight(TrimLeft(s)) }

  /** What TrimSpace keeps is the piece of s from its first to its last visible
      character, or nothing when s has none. */
  lemma TrimSpaceKeeps(s: string)
    ensures TrimSpace(s) == "" <==> Blank(s)
    ensures TrimSpace(s) != "" ==> !IsSpace(TrimSpace(s)[0]) && !IsSpace(TrimSpace(s)[|TrimSpace(s)| - 1])
    ensures Occurs(s, TrimSpace(s))
  {
    var i := SkipSpaces(s, 0);
    var l := TrimLeft(s);
    var n := DropSpaces(l, |l|);
    assert TrimSpace(s) == l[..n] == s[i..i + n];
    assert OccursAt(s, TrimSpace(s), i);
    if i < |s| {
      assert l[0] == s[i];
      assert n > 0;
    }
  }

  lemma OccursTrans(a: string, b: string, c: string)
    requires Occurs(b, a) && Occurs(c, b)
    ensures Occurs(c, a)
  {
    var i: nat :| i <= |b| && OccursAt(b, a, i);
    var j: nat :| j <= |c| && OccursAt(c, b, j);
    assert forall k | 0 <= k < |a| :: a[k] == b[i + k] == c[j + (i + k)];
    assert OccursAt(c, a, j + i);
  }

  lemma SliceOccurs(s: string, t: string, i: nat, j: nat)
    requires Occurs(s, t) && i <= j <= |t|
    ensures Occurs(s, t[i..j])
  {
    assert OccursAt(t, t[i..j], i);
    OccursTrans(t[i..j], t, s);
  }

  lemma TrimOccurs(s: string, t: string)
    requires Occurs(s, t)
    ensures Occurs(s, TrimSpace(t))
  {
    TrimSpaceKeeps(t);
    OccursTrans(TrimSpace(t), t, s);
  }

  lemma TrimSuffixOccurs(s: string, t: string, suffix: string)
    requires Occurs(s, t)
    ensures Occurs(s, TrimSuffix(t, suffix))
  {
    var r := TrimSuffix(t, suffix);
    assert r == t[0..|r|];
    SliceOccurs(s, t, 0, |r|);
  }

  /** The index of the first occurrence of sep at or after i, as strings.Index finds it. */
  function IndexFrom(s: string, sep: string, i: nat): (r: Option<nat>)
    ensures r.Some? ==> i <= r.value && OccursAt(s, sep, r.value)
    ensures forall k: nat | i <= k && OccursAt(s, sep, k) :: r.Some? && r.value <= k
    decreases |s| - i
  {
    if OccursAt(s, sep, i) then Some(i)
    else if i >= |s| then None
    else IndexFrom(s, sep, i + 1)
  }

  lemma FirstAt(s: string, sep: string, i: nat, at: nat)
    requires i <= at && OccursAt(s, sep, at) && forall k: nat | i <= k < at :: !OccursAt(s, sep, k)
    ensures IndexFrom(s, sep, i) == Some(at)
  {}

  lemma PieceIn(before: string, piece: string, s: string)
    requires before + piece <= s
    ensures |before| + |piece| <= |s| && s[|before|..|before| + |piece|] == piece && before <= s
  {
    var n := |before| + |piece|;
    assert s[..n] == before + piece;
    assert s[|before|..n] == s[..n][|before|..];
    assert s[..|before|] == s[..n][..|before|] == before;
  }

  /** What stands between visible characters is not trimmed. */
  lemma TrimAround(a: string, x: string, b: string)
    requires x != "" && !IsSpace(x[0]) && !IsSpace(x[|x| - 1])
    ensures TrimSpace(a + x + b) == TrimLeft(a) + x + TrimRight(b)
  {
    var s := a + x + b;
    SkipSpacesInto(a, x + b, 0);
    assert s == a + (x + b);
    var i := SkipSpaces(a, 0);
    var l := a[i..] + x + b;
    assert TrimLeft(s) == l;
    DropSpacesInto(a[i..] + x, b, |b|);
    assert l == (a[i..] + x) + b;
    assert TrimRight(l) == a[i..] + x + TrimRight(b);
  }

  lemma {:induction false} SkipSpacesInto(a: string, rest: string, i: nat)
    requires i <= |a| && rest != "" && !IsSpace(rest[0])
    ensures SkipSpaces(a + rest, i) == SkipSpaces(a, i)
    decreases |a| - i
  {
    if i < |a| && IsSpace(a[i]) {
      SkipSpacesInto(a, rest, i + 1);
    }
  }

  lemma {:induction false} DropSpacesInto(front: string, b: string, n: nat)
    requires n <= |b| && front != "" && !IsSpace(front[|front| - 1])
    ensures DropSpaces(front + b, |front| + n) == |front| + DropSpaces(b, n)
  {
    if n > 0 && IsSpace(b[n - 1]) {
      DropSpacesInto(front, b, n - 1);
    }
  }

  function TrimSuffix(s: string, suffix: string): (r: string)
    ensures r <= s
  {
    if |suffix| <= |s| && s[|s| - |suffix|..] == suffix then s[..|s| - |suffix|] else s
  }

  /** Decimal digits of a natural number, as strconv.Itoa writes them. */
  function Digits(n: nat): (r: string)
    ensures r != "" && r[0] != '-'
  {
    var d := ['0' + (n % 10) as char];
    if n < 10 then d else Digits(n / 10) + d
  }

  function Itoa(n: int): string {
    if n < 0 then "-" + Digits(-n) else Digits(n)
  }

  /** The number a row of decimal digits stands for. */
  function Value(digits: string): int {
    if digits == "" then 0 else 10 * Value(digits[..|digits| - 1]) + (digits[|digits| - 1] as int - '0' as int)
  }

  /** Itoa writes the number's decimal digits, without leading zeros, after a minus
      sign when it is negative. */
  lemma {:induction false} DigitsRead(n: nat)
    ensures Value(Digits(n)) == n && (Digits(n)[0] == '0' ==> n == 0)
    ensures forall c | c in Digits(n) :: '0' <= c <= '9'
  {
    var d := ['0' + (n % 10) as char];
    if n >= 10 {
      DigitsRead(n / 10);
      assert Digits(n)[..|Digits(n)| - 1] == Digits(n / 10);
    } else {
      assert d[..0] == "" && Value(d) == 10 * Value("") + n;
    }
  }
}
