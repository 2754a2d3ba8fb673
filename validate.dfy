/**
 * Request-field validation shared by every handler: Go's
 * `strings.TrimSpace` and the two checks built on it.
 */
module Validate {
  import opened Common

  /** Number of characters in Go's `unicode.IsSpace` set. */
  const SpaceCount := 25

  /**
   * The `k`-th character of Go's `unicode.IsSpace` set in code-point order:
   * the ASCII blanks, NEL, NO-BREAK SPACE and the Unicode White_Space
   * characters.
   */
  function SpaceChar(k: nat): char
  {
    match k
    case 0 => '\t'
    case 1 => '\n'
    case 2 => '\U{000B}'
    case 3 => '\U{000C}'
    case 4 => '\r'
    case 5 => ' '
    case 6 => '\U{0085}'
    case 7 => '\U{00A0}'
    case 8 => '\U{1680}'
    case 9 => '\U{2000}'
    case 10 => '\U{2001}'
    case 11 => '\U{2002}'
    case 12 => '\U{2003}'
    case 13 => '\U{2004}'
    case 14 => '\U{2005}'
    case 15 => '\U{2006}'
    case 16 => '\U{2007}'
    case 17 => '\U{2008}'
    case 18 => '\U{2009}'
    case 19 => '\U{200A}'
    case 20 => '\U{2028}'
    case 21 => '\U{2029}'
    case 22 => '\U{202F}'
    case 23 => '\U{205F}'
    case _ => '\U{3000}'
  }

  /** `c` is one of the first `n` white-space characters. */
  predicate SpaceIn(c: char, n: nat)
  {
    n > 0 && (c == SpaceChar(n - 1) || SpaceIn(c, n - 1))
  }

  predicate IsSpace(c: char)
  {
    SpaceIn(c, SpaceCount)
  }

  /** Every character of `s` in positions `lo` up to `hi` is white space. */
  predicate SpaceBetween(s: string, lo: nat, hi: nat)
    requires lo <= hi <= |s|
  {
    forall i :: lo <= i < hi ==> IsSpace(s[i])
  }

  /** First position at or after `i` that does not hold white space. */
  function SkipSpace(s: string, i: nat): (r: nat)
    requires i <= |s|
    ensures i <= r <= |s| && SpaceBetween(s, i, r)
    ensures r < |s| ==> !IsSpace(s[r])
    decreases |s| - i
  {
    if i < |s| && IsSpace(s[i]) then SkipSpace(s, i + 1) else i
  }

  /** Start of the run of white space that ends at `j`, looking no lower than `lo`. */
  function BackSpace(s: string, lo: nat, j: nat): (r: nat)
    requires lo <= j <= |s|
    ensures lo <= r <= j && SpaceBetween(s, r, j)
    ensures r > lo ==> !IsSpace(s[r - 1])
    decreases j
  {
    if j > lo && IsSpace(s[j - 1]) then BackSpace(s, lo, j - 1) else j
  }

  /** `strings.TrimSpace`: the part of `s` between its leading and its trailing white space. */
  function TrimSpace(s: string): string
  {
    var a := SkipSpace(s, 0);
    s[a..BackSpace(s, a, |s|)]
  }

  /**
   * What `TrimSpace` keeps is an infix of `s` that neither starts nor ends
   * with white space, and everything around it is white space.
   */
  lemma TrimSpaceInfix(s: string)
    ensures var a, r := SkipSpace(s, 0), TrimSpace(s);
      a + |r| <= |s| && r == s[a..a + |r|] && SpaceBetween(s, 0, a) && SpaceBetween(s, a + |r|, |s|)
    ensures var r := TrimSpace(s); r != [] ==> !IsSpace(r[0]) && !IsSpace(r[|r| - 1])
  {
  }

  /**
   * The infix `TrimSpace` keeps is the only one with those properties:
   * any split of `s` into white space, a part that neither starts nor
   * ends with white space, and white space, keeps that part.
   */
  lemma {:induction false} TrimSpaceUnique(s: string, a: nat, b: nat)
    requires a <= b <= |s| && SpaceBetween(s, 0, a) && SpaceBetween(s, b, |s|)
    requires a < b ==> !IsSpace(s[a]) && !IsSpace(s[b - 1])
    ensures TrimSpace(s) == s[a..b]
  {
    var a' := SkipSpace(s, 0);
    if a < b {
      assert a' == a;
      assert BackSpace(s, a, |s|) == b;
    } else {
      assert a' == |s|;
    }
  }

  /** `TrimSpace` yields the empty string exactly when `s` is all white space. */
  lemma TrimSpaceEmpty(s: string)
    ensures TrimSpace(s) == [] <==> SpaceBetween(s, 0, |s|)
  {
  }

  /** Trimming twice is trimming once. */
  lemma TrimSpaceIdempotent(s: string)
    ensures TrimSpace(TrimSpace(s)) == TrimSpace(s)
  {
    var t := TrimSpace(s);
    TrimSpaceInfix(s);
    TrimSpaceUnique(t, 0, |t|);
  }

  /** A visible ASCII character is not white space. */
  lemma {:induction false} VisibleNotSpace(c: char, n: nat)
    requires '!' <= c <= '~'
    ensures !SpaceIn(c, n)
  {
    if n > 0 {
      VisibleNotSpace(c, n - 1);
    }
  }

  /** A non-empty value of visible ASCII characters passes `CheckStringData` unchanged. */
  lemma CheckVisible(s: string, name: string)
    requires |s| > 0 && forall i :: 0 <= i < |s| ==> '!' <= s[i] <= '~'
    ensures CheckStringData(s, name) == Ok(s)
  {
    VisibleNotSpace(s[0], SpaceCount);
    VisibleNotSpace(s[|s| - 1], SpaceCount);
    TrimSpaceUnique(s, 0, |s|);
    assert s[0..|s|] == s;
  }

  /**
   * `CheckStringData`: a present field is trimmed; a field that is empty
   * after trimming is reported as a missing parameter named `name`.
   */
  function CheckStringData(data: string, name: string): (r: Result<string>)
    ensures r.Ok? <==> !SpaceBetween(data, 0, |data|)
    ensures r.Ok? ==> r.value != [] && !IsSpace(r.value[0]) && !IsSpace(r.value[|r.value| - 1])
    ensures r.Err? ==> r.error == RequireParameter(name)
  {
    TrimSpaceEmpty(data);
    TrimSpaceInfix(data);
    var t := TrimSpace(data);
    if |t| == 0 then Err(RequireParameter(name)) else Ok(t)
  }

  /** A value that passed `CheckStringData` passes it again unchanged. */
  lemma CheckStringDataIdempotent(data: string, name: string)
    requires CheckStringData(data, name).Ok?
    ensures CheckStringData(CheckStringData(data, name).value, name) == CheckStringData(data, name)
  {
    TrimSpaceIdempotent(data);
  }

  /**
   * `CheckIntegerData`: an absent field is a missing parameter; a present
   * one must be strictly positive.
   */
  function CheckIntegerData(data: Option<int>, name: string): (r: Result<int>)
    ensures r.Ok? <==> data.Some? && data.value > 0
    ensures r.Ok? ==> r.value == data.value
    ensures data.None? ==> r == Err(RequireParameter(name))
    ensures data.Some? && data.value <= 0 ==> r == Err(ValueInvalid(name))
  {
    match data
    case None => Err(RequireParameter(name))
    case Some(v) => if v <= 0 then Err(ValueInvalid(name)) else Ok(v)
  }
}
