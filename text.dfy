/**
 * Character classes and small string functions of Python's `str` that the
 * parsers rely on, restricted to ASCII digits and letters (see README).
 */
module Text {
  import opened Wrappers


  predicate IsDigit(c: char)
  {
    '0' <= c <= '9'
  }

  /** Regex `\w`: letters, digits and the underscore. */
  predicate IsWordChar(c: char)
  {
    IsDigit(c) || ('a' <= c <= 'z') || ('A' <= c <= 'Z') || c == '_'
  }

  /** Whitespace removed by `str.strip()` (ASCII whitespace, the separators 0x1c-0x1f, NEL and NBSP). */
  predicate IsSpace(c: char)
  {
    c == ' ' || c == '\t' || c == '\n' || c == '\r' || c == '\U{000B}' || c == '\U{000C}'
    || ('\U{001C}' <= c <= '\U{001F}') || c == '\U{0085}' || c == '\U{00A0}'
  }

  /** Line boundaries recognised by `str.splitlines()`. */
  predicate IsLineBreak(c: char)
  {
    c == '\n' || c == '\r' || c == '\U{000B}' || c == '\U{000C}'
    || ('\U{001C}' <= c <= '\U{001E}') || c == '\U{0085}' || c == '\U{2028}' || c == '\U{2029}'
  }

  /** `s.isdigit()`: non-empty and made of digits only. */
  predicate AllDigits(s: string)
  {
    |s| > 0 && forall i :: 0 <= i < |s| ==> IsDigit(s[i])
  }

  /** Decimal value of a string of digits (`int(s)`). */
  function DigitsValue(s: string): (v: nat)
    requires forall i :: 0 <= i < |s| ==> IsDigit(s[i])
  {
    if s == [] then 0
    else
      assert IsDigit(s[|s| - 1]);
      10 * DigitsValue(s[..|s| - 1]) + (s[|s| - 1] as int - '0' as int)
  }

  /** `str.strip()`: leading and trailing whitespace removed. */
  function Strip(s: string): (r: string)
    ensures |r| <= |s|
    ensures r != [] ==> !IsSpace(r[0]) && !IsSpace(r[|r| - 1])
    ensures forall c :: c in r ==> c in s
  {
    StripRight(StripLeft(s))
  }

  function StripLeft(s: string): (r: string)
    ensures |r| <= |s| && (r != [] ==> !IsSpace(r[0]))
    ensures r == s[|s| - |r|..]
  {
    if s != [] && IsSpace(s[0]) then StripLeft(s[1..]) else s
  }

  function StripRight(s: string): (r: string)
    ensures |r| <= |s| && (r != [] ==> !IsSpace(r[|r| - 1]))
    ensures r == s[..|r|]
  {
    if s != [] && IsSpace(s[|s| - 1]) then StripRight(s[..|s| - 1]) else s
  }

  /**
   * The pieces of `s` between line breaks. Python's `splitlines` does not return
   * the empty piece after a trailing break or between the two characters of
   * "\r\n"; such empty pieces never carry a number, so every caller here gets the
   * same result from either.
   */
  function Lines(s: string): (r: seq<string>)
    ensures |r| > 0
    ensures forall i :: 0 <= i < |r| ==> forall c :: c in r[i] ==> c in s && !IsLineBreak(c)
  {
    if s == [] then [[]]
    else
      var rest := Lines(s[1..]);
      if IsLineBreak(s[0]) then [[]] + rest
      else [[s[0]] + rest[0]] + rest[1..]
  }

  /** What a parser `f` accepts among `xs`, in order; the texts it rejects are skipped. */
  function Keep(xs: seq<string>, f: string -> Option<int>): (r: seq<int>)
    ensures |r| <= |xs|
  {
    if xs == [] then []
    else
      var init := Keep(xs[..|xs| - 1], f);
      match f(xs[|xs| - 1])
      case Some(n) => init + [n]
      case None => init
  }

  /** Extending the input by one element extends the kept answers by that element's answer, if any. */
  lemma KeepSnoc(xs: seq<string>, k: nat, f: string -> Option<int>)
    requires k < |xs|
    ensures Keep(xs[..k + 1], f) == Keep(xs[..k], f) + (if f(xs[k]).Some? then [f(xs[k]).value] else [])
  {
    assert xs[..k + 1][..k] == xs[..k];
  }

  /** A value is kept iff `f` answers it for some element. */
  lemma {:induction false} KeepMembers(xs: seq<string>, f: string -> Option<int>, x: int)
    ensures x in Keep(xs, f) <==> exists j :: 0 <= j < |xs| && f(xs[j]) == Some(x)
  {
    if xs != [] {
      var init := xs[..|xs| - 1];
      KeepMembers(init, f, x);
      if exists j :: 0 <= j < |xs| && f(xs[j]) == Some(x) {
        var j :| 0 <= j < |xs| && f(xs[j]) == Some(x);
        if j < |xs| - 1 {
          assert init[j] == xs[j];
        }
      }
      if x in Keep(init, f) {
        var j :| 0 <= j < |init| && f(init[j]) == Some(x);
        assert xs[j] == init[j];
      }
    }
  }
}
