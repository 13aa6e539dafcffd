/**
 Text as the Go code sees it after decoding: a string is its sequence of runes, which is what a
 Dafny `string` of Unicode characters is.  The tables of Go's `unicode` package stay abstract.
 */
module Text {
  /** The answers of Go's `unicode` tables.  `fold` maps a rune to a representative of its
      simple-folding orbit, which is what `strings.EqualFold` compares. */
  datatype Unicode = Unicode(
    isSpace: char -> bool,
    isDigit: char -> bool,
    isLetter: char -> bool,
    fold: char -> char)
  {
    /** What is used of the tables: the three categories are disjoint, the two ASCII blanks are
        space, ASCII punctuation is in none of them, lower-case ASCII letters are letters and lie,
        with the underscore, in different folding orbits. */
    ghost predicate Valid() {
      && (forall r :: isDigit(r) ==> !isSpace(r) && !isLetter(r))
      && (forall r :: isLetter(r) ==> !isSpace(r))
      && isSpace(' ') && isSpace('\n')
      && !isDigit('\n') && !isLetter('\n')
      && (forall r :: 'a' <= r <= 'z' ==> isLetter(r))
      && (forall r :: IsAsciiPunct(r) ==> !isSpace(r) && !isDigit(r) && !isLetter(r))
      && (forall r, t :: FoldsApart(r) && FoldsApart(t) && fold(r) == fold(t) ==> r == t)
    }
  }

  predicate IsAsciiPunct(r: char) {
    '!' <= r <= '/' || ':' <= r <= '@' || '[' <= r <= '`' || '{' <= r <= '~'
  }

  predicate FoldsApart(r: char) {
    'a' <= r <= 'z' || r == '_'
  }

  /** `strings.EqualFold`. */
  predicate EqualFold(u: Unicode, s: string, t: string) {
    |s| == |t| && forall i :: 0 <= i < |s| ==> u.fold(s[i]) == u.fold(t[i])
  }

  /** `strings.TrimSpace(s) == ""`. */
  predicate IsBlank(u: Unicode, s: string) {
    forall i :: 0 <= i < |s| ==> u.isSpace(s[i])
  }

  /** `strings.TrimRight` of newlines. */
  function TrimNewlines(s: string): (t: string)
    ensures t <= s && (t != "" ==> t[|t| - 1] != '\n')
    ensures forall k :: |t| <= k < |s| ==> s[k] == '\n'
  {
    if s != "" && s[|s| - 1] == '\n' then TrimNewlines(s[..|s| - 1]) else s
  }

  /** `strings.Repeat`, for a sequence of anything. */
  function Repeat<T>(text: seq<T>, n: nat): seq<T> {
    if n == 0 then [] else text + Repeat(text, n - 1)
  }

  lemma {:induction false} RepeatSnoc<T>(text: seq<T>, n: nat)
    ensures Repeat(text, n + 1) == Repeat(text, n) + text
  {
    if n > 0 {
      RepeatSnoc(text, n - 1);
      assert text + (Repeat(text, n - 1) + text) == (text + Repeat(text, n - 1)) + text;
    }
  }

  lemma {:induction false} RepeatLength<T>(text: seq<T>, n: nat)
    ensures |Repeat(text, n)| == n * |text|
  {
    if n > 0 {
      RepeatLength(text, n - 1);
      assert n * |text| == (n - 1) * |text| + |text|;
    }
  }
}
