/**
 * The join key between chart series and legend items: `s.trim().replace(/\s/g, "")`.
 * Both steps use ECMAScript's white space and line terminator characters.
 */
module Keys {

  /** The characters matched by `\s` and removed by `trim()`. */
  predicate IsWhitespace(c: char) {
    c == '\t' || c == '\n' || c == '\U{000B}' || c == '\U{000C}' || c == '\r' || c == ' ' ||
    c == '\U{00A0}' || c == '\U{1680}' || ('\U{2000}' <= c <= '\U{200A}') ||
    c == '\U{2028}' || c == '\U{2029}' || c == '\U{202F}' || c == '\U{205F}' || c == '\U{3000}' ||
    c == '\U{FEFF}'
  }

  predicate NoWhitespace(s: string) {
    forall i :: 0 <= i < |s| ==> !IsWhitespace(s[i])
  }

  /** `trim()` on the left: `s` without its leading white space. */
  function TrimStart(s: string): string {
    if s != [] && IsWhitespace(s[0]) then TrimStart(s[1..]) else s
  }

  /** `TrimStart` drops a prefix made only of white space and stops at the first other character. */
  lemma {:induction false} TrimStartSpec(s: string)
    ensures |TrimStart(s)| <= |s| && TrimStart(s) == s[|s| - |TrimStart(s)|..]
    ensures forall i :: 0 <= i < |s| - |TrimStart(s)| ==> IsWhitespace(s[i])
    ensures TrimStart(s) == [] || !IsWhitespace(TrimStart(s)[0])
  {
    if s != [] && IsWhitespace(s[0]) {
      var t := TrimStart(s[1..]);
      TrimStartSpec(s[1..]);
      assert TrimStart(s) == t;
      assert s[1..][|s| - 1 - |t|..] == s[|s| - |t|..];
      forall i | 0 <= i < |s| - |t| ensures IsWhitespace(s[i]) {
        if i > 0 {
          assert s[i] == s[1..][i - 1];
        }
      }
    }
  }

  /** `trim()` on the right: `s` without its trailing white space. */
  function TrimEnd(s: string): string {
    if s != [] && IsWhitespace(s[|s| - 1]) then TrimEnd(s[..|s| - 1]) else s
  }

  /** `TrimEnd` drops a suffix made only of white space and stops at the last other character. */
  lemma {:induction false} TrimEndSpec(s: string)
    ensures |TrimEnd(s)| <= |s| && TrimEnd(s) == s[..|TrimEnd(s)|]
    ensures forall i :: |TrimEnd(s)| <= i < |s| ==> IsWhitespace(s[i])
    ensures TrimEnd(s) == [] || !IsWhitespace(TrimEnd(s)[|TrimEnd(s)| - 1])
  {
    if s != [] && IsWhitespace(s[|s| - 1]) {
      var u := TrimEnd(s[..|s| - 1]);
      TrimEndSpec(s[..|s| - 1]);
      assert TrimEnd(s) == u;
      assert s[..|s| - 1][..|u|] == s[..|u|];
      forall i | |u| <= i < |s| ensures IsWhitespace(s[i]) {
        if i < |s| - 1 {
          assert s[i] == s[..|s| - 1][i];
        }
      }
    }
  }

  function Trim(s: string): string {
    TrimEnd(TrimStart(s))
  }

  /** `replace(/\s/g, "")`: every white space character removed, the rest kept in order. */
  function StripWhitespace(s: string): string {
    if s == [] then []
    else (if IsWhitespace(s[0]) then [] else [s[0]]) + StripWhitespace(s[1..])
  }

  /** The key under which series and legend items are matched. */
  function Normalize(s: string): string {
    StripWhitespace(Trim(s))
  }

  /** The stripped string has no white space and is no longer than the original. */
  lemma {:induction false} StripSpec(s: string)
    ensures NoWhitespace(StripWhitespace(s)) && |StripWhitespace(s)| <= |s|
  {
    if s != [] {
      StripSpec(s[1..]);
    }
  }

  /** Removing white space distributes over concatenation. */
  lemma {:induction false} StripConcat(a: string, b: string)
    ensures StripWhitespace(a + b) == StripWhitespace(a) + StripWhitespace(b)
  {
    if a == [] {
      assert a + b == b;
    } else {
      assert (a + b)[0] == a[0] && (a + b)[1..] == a[1..] + b;
      StripConcat(a[1..], b);
    }
  }

  /** A string without white space is its own stripped form. */
  lemma {:induction false} StripKeepsClean(s: string)
    requires NoWhitespace(s)
    ensures StripWhitespace(s) == s
  {
    if s != [] {
      StripKeepsClean(s[1..]);
    }
  }

  /** A string made only of white space strips to the empty string. */
  lemma {:induction false} StripAllWhitespace(s: string)
    requires forall i :: 0 <= i < |s| ==> IsWhitespace(s[i])
    ensures StripWhitespace(s) == []
  {
    if s != [] {
      StripAllWhitespace(s[1..]);
    }
  }

  lemma TrimStartKeepsStrip(s: string)
    ensures StripWhitespace(TrimStart(s)) == StripWhitespace(s)
  {
    TrimStartSpec(s);
    var t := TrimStart(s);
    var lead := s[..|s| - |t|];
    assert s == lead + t;
    StripAllWhitespace(lead);
    StripConcat(lead, t);
  }

  lemma TrimEndKeepsStrip(s: string)
    ensures StripWhitespace(TrimEnd(s)) == StripWhitespace(s)
  {
    TrimEndSpec(s);
    var u := TrimEnd(s);
    var trail := s[|u|..];
    assert s == u + trail;
    StripAllWhitespace(trail);
    StripConcat(u, trail);
  }

  /** The `trim()` is redundant: the key is `s` with all of its white space removed. */
  lemma NormalizeIsStrip(s: string)
    ensures Normalize(s) == StripWhitespace(s)
  {
    TrimStartKeepsStrip(s);
    TrimEndKeepsStrip(TrimStart(s));
  }

  /**
   * The key has no white space and keeps the other characters in their order: the key of
   * a concatenation is the concatenation of the keys, and one character is kept exactly
   * when it is not white space.
   */
  lemma NormalizeSpec(s: string, t: string, c: char)
    ensures NoWhitespace(Normalize(s))
    ensures Normalize(s + t) == Normalize(s) + Normalize(t)
    ensures Normalize([c]) == if IsWhitespace(c) then [] else [c]
  {
    NormalizeIsStrip(s);
    StripSpec(s);
    NormalizeIsStrip(t);
    NormalizeIsStrip(s + t);
    NormalizeIsStrip([c]);
    StripConcat(s, t);
  }

  /** Normalising twice gives the same key as normalising once. */
  lemma NormalizeIdempotent(s: string)
    ensures Normalize(Normalize(s)) == Normalize(s)
  {
    NormalizeIsStrip(s);
    StripSpec(s);
    NormalizeIsStrip(Normalize(s));
    StripKeepsClean(Normalize(s));
  }

  /**
   * The hovered key of `chartMouseOver`: the normalised key of the series under the
   * mouse when that is not empty, otherwise the normalised legend datum. An element with
   * no series key passes the empty string, which JavaScript's `||` treats alike.
   */
  function HoveredKey(seriesKey: string, datum: string): string {
    var fromSeries := Normalize(seriesKey);
    if fromSeries != [] then fromSeries else Normalize(datum)
  }

  /**
   * The hovered key is a key: it has no white space. It is the series key stripped of
   * white space unless that leaves nothing, and the stripped datum otherwise.
   */
  lemma HoveredKeySpec(seriesKey: string, datum: string)
    ensures NoWhitespace(HoveredKey(seriesKey, datum))
    ensures HoveredKey(seriesKey, datum)
         == if StripWhitespace(seriesKey) != [] then StripWhitespace(seriesKey) else StripWhitespace(datum)
  {
    NormalizeIsStrip(seriesKey);
    NormalizeIsStrip(datum);
    StripSpec(seriesKey);
    StripSpec(datum);
  }
}
