/** Splitting text into search terms. */
module Tokenizing {
  import opened Texts

  const STOP_WORDS: set<string> := {
    "the", "a", "an", "is", "are", "was", "were", "be", "been", "being",
    "have", "has", "had", "do", "does", "did", "will", "would", "could",
    "should", "may", "might", "shall", "can", "need", "must",
    "to", "of", "in", "for", "on", "with", "at", "by", "from", "as",
    "into", "through", "during", "before", "after", "above", "below",
    "between", "out", "off", "over", "under", "again", "further", "then",
    "once", "here", "there", "when", "where", "why", "how", "all", "each",
    "every", "both", "few", "more", "most", "other", "some", "such",
    "no", "nor", "not", "only", "own", "same", "so", "than", "too",
    "very", "just", "because", "but", "and", "or", "if", "while",
    "about", "up", "it", "its", "this", "that", "these", "those",
    "he", "she", "they", "we", "you", "me", "him", "her", "us", "them",
    "my", "your", "his", "our", "their", "what", "which", "who", "whom"
  }

  const SEPARATORS: string := ",.;:!?(){}[]\"'/\\|<>@#$%^&*+=~`"

  predicate IsSeparator(c: char) {
    IsSpace(c) || c in SEPARATORS
  }

  function LowerChar(c: char): char {
    if 'A' <= c <= 'Z' then ((c as int) + 32) as char else c
  }

  function Lower(s: string): string {
    if s == [] then [] else [LowerChar(s[0])] + Lower(s[1..])
  }

  /** The pieces between separators, `open` being the piece already begun. */
  function Pieces(s: string, open: string): seq<string> {
    if s == [] then [open]
    else if IsSeparator(s[0]) then [open] + Pieces(s[1..], "")
    else Pieces(s[1..], open + [s[0]])
  }

  predicate IsTerm(t: string) {
    2 <= |t| <= 100 && t !in STOP_WORDS
  }

  function Terms(pieces: seq<string>): seq<string> {
    if pieces == [] then []
    else (if IsTerm(pieces[0]) then [pieces[0]] else []) + Terms(pieces[1..])
  }

  function Tokenize(text: string): seq<string> {
    Terms(Pieces(Lower(text), ""))
  }

  lemma {:induction false} TermsConcat(a: seq<string>, b: seq<string>)
    ensures Terms(a + b) == Terms(a) + Terms(b)
  {
    if a == [] {
      assert a + b == b && Terms([]) == [];
    } else {
      assert (a + b)[1..] == a[1..] + b && a + b != [];
      TermsConcat(a[1..], b);
      var first := if IsTerm(a[0]) then [a[0]] else [];
      assert Terms(a + b) == first + Terms((a + b)[1..]) && Terms(a) == first + Terms(a[1..]);
      hide Terms, IsTerm;
    }
  }

  lemma {:induction false} PiecesConcat(a: string, sep: char, b: string, open: string)
    requires IsSeparator(sep)
    ensures Pieces(a + [sep] + b, open) == Pieces(a, open) + Pieces(b, "")
  {
    hide IsSeparator;
    var all := a + [sep] + b;
    if a == [] {
      assert all[0] == sep && all[1..] == b;
    } else {
      assert all[0] == a[0] && all[1..] == a[1..] + [sep] + b;
      PiecesConcat(a[1..], sep, b, if IsSeparator(a[0]) then "" else open + [a[0]]);
    }
  }

  lemma {:induction false} LowerConcat(a: string, b: string)
    ensures Lower(a + b) == Lower(a) + Lower(b)
  {
    if a == [] {
      assert a + b == b;
    } else {
      assert (a + b)[1..] == a[1..] + b;
      LowerConcat(a[1..], b);
    }
  }

  lemma LowerSeparator(c: char)
    requires IsSeparator(c)
    ensures Lower([c]) == [c]
  {
    assert [c][1..] == [];
  }

  /** A separator splits the text: the terms of both sides, in order. */
  lemma TokenizeSplitsAtSeparators(a: string, sep: char, b: string)
    requires IsSpace(sep) || sep in SEPARATORS
    ensures Tokenize(a + [sep] + b) == Tokenize(a) + Tokenize(b)
  {
    assert IsSeparator(sep);
    hide IsSeparator, IsTerm;
    LowerConcat(a + [sep], b);
    LowerConcat(a, [sep]);
    LowerSeparator(sep);
    PiecesConcat(Lower(a), sep, Lower(b), "");
    TermsConcat(Pieces(Lower(a), ""), Pieces(Lower(b), ""));
  }

  ghost predicate OneWord(s: string) {
    forall i :: 0 <= i < |s| ==> !IsSeparator(s[i])
  }

  lemma {:induction false} PieceOfWord(s: string, open: string)
    requires OneWord(s)
    ensures Pieces(s, open) == [open + s]
  {
    hide IsSeparator;
    if s == [] {
      assert open + s == open;
    } else {
      PieceOfWord(s[1..], open + [s[0]]);
      assert open + [s[0]] + s[1..] == open + s;
    }
  }

  lemma {:induction false} LowerFacts(s: string)
    ensures |Lower(s)| == |s| && forall i :: 0 <= i < |s| ==> Lower(s)[i] == LowerChar(s[i])
  {
    if s != [] { LowerFacts(s[1..]); }
  }

  /** A text without separators is one term in lower case, or none when that is no term. Together with
      the splitting law this determines the terms of every text. */
  lemma TokenizeWord(s: string)
    requires forall i :: 0 <= i < |s| ==> !IsSpace(s[i]) && s[i] !in SEPARATORS
    ensures |Lower(s)| == |s|
    ensures forall i :: 0 <= i < |s| ==>
              Lower(s)[i] == if 'A' <= s[i] <= 'Z' then ((s[i] as int) + 32) as char else s[i]
    ensures Tokenize(s) == if 2 <= |s| <= 100 && Lower(s) !in STOP_WORDS then [Lower(s)] else []
  {
    LowerFacts(s);
    assert OneWord(s);
    assert IsTerm(Lower(s)) <==> 2 <= |s| <= 100 && Lower(s) !in STOP_WORDS;
    LowerIsOneWord(s);
    TermOfPiece(Lower(s));
    hide Lower, OneWord, Terms, Pieces, IsTerm;
    PieceOfWord(Lower(s), "");
    assert "" + Lower(s) == Lower(s);
  }

  lemma LowerIsOneWord(s: string)
    requires OneWord(s)
    ensures OneWord(Lower(s))
  {
    hide IsSeparator, Lower;
    LowerFacts(s);
    forall i | 0 <= i < |s| ensures !IsSeparator(Lower(s)[i]) {
      assert !IsSeparator(s[i]);
      LetterIsNoSeparator(s[i]);
    }
  }

  lemma TermOfPiece(piece: string)
    ensures Terms([piece]) == if IsTerm(piece) then [piece] else []
  {
    hide IsTerm;
    assert [piece][1..] == [] && Terms([]) == [];
  }

  lemma LetterIsNoSeparator(c: char)
    requires !IsSeparator(c)
    ensures !IsSeparator(LowerChar(c))
  {
    if 'A' <= c <= 'Z' {
      var d := LowerChar(c);
      assert 'a' <= d <= 'z';
      forall i | 0 <= i < |SEPARATORS| ensures SEPARATORS[i] != d { }
    }
  }
}
