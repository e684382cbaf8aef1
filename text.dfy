/** The Java string operations the store relies on, stated over `seq<char>`:
    prefix and suffix tests, `Strings.isNullOrBlank`, `String.split(" ")` for the
    `parents` attribute, `StringTokenizer(s, "|")` for the non-proxy host list, and
    `String.replace(char, char)` for file patterns. */
module Text {
  import opened Wrappers

  predicate StartsWith(s: string, prefix: string) {
    |prefix| <= |s| && s[..|prefix|] == prefix
  }

  predicate EndsWith(s: string, suffix: string) {
    |suffix| <= |s| && s[|s| - |suffix|..] == suffix
  }

  /** `Strings.isNullOrBlank`: null, or nothing left once `trim()` has dropped every
      character at or below the space character. */
  predicate IsNullOrBlank(s: Option<string>) {
    s.None? || forall i :: 0 <= i < |s.value| ==> s.value[i] <= ' '
  }

  /** Position of the first occurrence of `c` in `s`. */
  function IndexOf(s: string, c: char): (i: nat)
    requires c in s
    ensures i < |s| && s[i] == c && c !in s[..i]
  {
    if s[0] == c then 0
    else
      var j := IndexOf(s[1..], c);
      assert s[..j + 1] == [s[0]] + s[1..][..j];
      1 + j
  }

  /** The stretches of `s` between occurrences of `c`, empty stretches included. */
  function Pieces(s: string, c: char): (r: seq<string>)
    ensures |r| > 0
    ensures forall i :: 0 <= i < |r| ==> c !in r[i]
    decreases |s|
  {
    if c !in s then [s]
    else
      var i := IndexOf(s, c);
      [s[..i]] + Pieces(s[i + 1..], c)
  }

  /** `parts` glued together with `c` between neighbours. */
  function Join(parts: seq<string>, c: char): string {
    if |parts| == 0 then ""
    else if |parts| == 1 then parts[0]
    else parts[0] + [c] + Join(parts[1..], c)
  }

  predicate NoneContains(parts: seq<string>, c: char) {
    forall i :: 0 <= i < |parts| ==> c !in parts[i]
  }

  /** Cutting at `c` loses nothing: gluing the pieces back gives the input. */
  lemma {:induction false} JoinOfPieces(s: string, c: char)
    ensures Join(Pieces(s, c), c) == s
    decreases |s|
  {
    if c in s {
      var i := IndexOf(s, c);
      JoinOfPieces(s[i + 1..], c);
      assert s == s[..i] + [c] + s[i + 1..];
    }
  }

  /** Cutting a glued sequence at the glue character gives the parts back. */
  lemma {:induction false} PiecesOfJoin(parts: seq<string>, c: char)
    requires |parts| > 0 && NoneContains(parts, c)
    ensures Pieces(Join(parts, c), c) == parts
  {
    if |parts| > 1 {
      var s := Join(parts, c);
      assert s == parts[0] + [c] + Join(parts[1..], c);
      assert s[|parts[0]|] == c;
      assert s[..|parts[0]|] == parts[0];
      var i := IndexOf(s, c);
      assert i == |parts[0]|;
      assert s[i + 1..] == Join(parts[1..], c);
      PiecesOfJoin(parts[1..], c);
    }
  }

  /** The trailing empty strings removed, as `String.split` does with limit 0. */
  function DropTrailingEmpty(xs: seq<string>): (r: seq<string>)
    ensures |r| <= |xs| && r == xs[..|r|]
    ensures r == [] || r[|r| - 1] != ""
    ensures forall i :: |r| <= i < |xs| ==> xs[i] == ""
  {
    if xs != [] && xs[|xs| - 1] == "" then DropTrailingEmpty(xs[..|xs| - 1]) else xs
  }

  /** `s.split(" ")` in Java: when the separator never occurs the answer is `[s]`
      (so `""` splits to `[""]`); otherwise the pieces between separators with the
      trailing empty ones removed (so `" "` splits to `[]`). */
  function SplitOnSpace(s: string): (r: seq<string>)
    ensures NoneContains(r, ' ')
    ensures ' ' !in s ==> r == [s]
  {
    if ' ' !in s then [s] else DropTrailingEmpty(Pieces(s, ' '))
  }

  /** A list of non-empty, space-free names written out with single spaces splits
      back into exactly that list. */
  lemma SplitOnSpaceOfJoin(names: seq<string>)
    requires |names| > 0 && NoneContains(names, ' ')
    requires forall i :: 0 <= i < |names| ==> names[i] != ""
    ensures SplitOnSpace(Join(names, ' ')) == names
  {
    PiecesOfJoin(names, ' ');
  }

  /** The non-empty strings of `xs`, in order. */
  function NonEmpty(xs: seq<string>): (r: seq<string>)
    ensures forall i :: 0 <= i < |r| ==> r[i] != "" && r[i] in xs
    ensures forall i :: 0 <= i < |xs| && xs[i] != "" ==> xs[i] in r
  {
    if xs == [] then []
    else (if xs[0] == "" then [] else [xs[0]]) + NonEmpty(xs[1..])
  }

  /** The tokens a `java.util.StringTokenizer` returns for `s` with the single
      delimiter `delim`: maximal runs of other characters; empty runs never appear. */
  function Tokens(s: string, delim: char): (r: seq<string>)
    ensures forall i :: 0 <= i < |r| ==> r[i] != "" && delim !in r[i]
  {
    NonEmpty(Pieces(s, delim))
  }

  /** Every non-empty stretch of `s` between delimiters is a token: the tokenizer skips
      only empty stretches. */
  lemma TokensCoverPieces(s: string, delim: char, piece: string)
    requires piece in Pieces(s, delim) && piece != ""
    ensures piece in Tokens(s, delim)
  {
  }

  /** A list of non-empty, delimiter-free tokens written out with the delimiter
      tokenizes back into exactly that list (the empty list included). */
  lemma TokensOfJoin(tokens: seq<string>, delim: char)
    requires NoneContains(tokens, delim)
    requires forall i :: 0 <= i < |tokens| ==> tokens[i] != ""
    ensures Tokens(Join(tokens, delim), delim) == tokens
  {
    if |tokens| > 0 {
      PiecesOfJoin(tokens, delim);
      NonEmptyKeeps(tokens);
    } else {
      assert Pieces("", delim) == [""];
      assert NonEmpty([""]) == [] + NonEmpty([]);
    }
  }

  lemma {:induction false} NonEmptyKeeps(xs: seq<string>)
    requires forall i :: 0 <= i < |xs| ==> xs[i] != ""
    ensures NonEmpty(xs) == xs
  {
    if xs != [] {
      NonEmptyKeeps(xs[1..]);
    }
  }

  /** `s.replace(a, b)`: every `a` becomes `b`. */
  function Replace(s: string, a: char, b: char): (r: string)
    ensures |r| == |s|
    ensures forall i :: 0 <= i < |s| ==> r[i] == (if s[i] == a then b else s[i])
  {
    seq(|s|, i requires 0 <= i < |s| => if s[i] == a then b else s[i])
  }

  /** Replacing the glue character re-glues the same parts with the new character. */
  lemma {:induction false} ReplaceJoin(parts: seq<string>, a: char, b: char)
    requires NoneContains(parts, a)
    ensures Replace(Join(parts, a), a, b) == Join(parts, b)
  {
    if |parts| == 1 {
      assert Replace(parts[0], a, b) == parts[0];
    } else if |parts| > 1 {
      ReplaceJoin(parts[1..], a, b);
      var tail := Join(parts[1..], a);
      assert Replace(parts[0] + [a] + tail, a, b) == Replace(parts[0], a, b) + [b] + Replace(tail, a, b);
      assert Replace(parts[0], a, b) == parts[0];
    }
  }
}
