/** Catalogue text: one normal form for publishing and matching, and whole-phrase containment
    (app/catalog_text.py). Unicode is abstracted to a per-character mapping and three character classes. */
module CatalogText {
  /** `fold` stands for NFKC, digit and letter mapping, lower-casing and the blanking of punctuation and
      symbols; `isSpace` and `isWord` for the classes of the regular expressions. */
  datatype Alphabet = Alphabet(fold: char -> char, isWord: char -> bool, isSpace: char -> bool)

  ghost predicate ValidAlphabet(a: Alphabet) {
    && a.isSpace(' ') && a.fold(' ') == ' '
    && (forall c :: a.fold(a.fold(c)) == a.fold(c))
    && (forall c :: a.isSpace(c) ==> !a.isWord(c) && a.isSpace(a.fold(c)))
  }

  /** Folds every character, turns each run of blanks into one space, and drops leading blanks. */
  function Squeeze(a: Alphabet, s: string): string {
    if s == [] then []
    else
      var done, c := Squeeze(a, s[..|s| - 1]), a.fold(s[|s| - 1]);
      if !a.isSpace(c) then done + [c]
      else if done == [] || done[|done| - 1] == ' ' then done
      else done + [' ']
  }

  function DropLastSpace(s: string): string {
    if s != [] && s[|s| - 1] == ' ' then s[..|s| - 1] else s
  }

  /** `normalize_catalog_text`. */
  function Normalize(a: Alphabet, s: string): string {
    DropLastSpace(Squeeze(a, s))
  }

  /** Folded text with single inner spaces, possibly one at the end. */
  ghost predicate IsSqueezed(a: Alphabet, s: string) {
    && (forall i :: 0 <= i < |s| ==> a.fold(s[i]) == s[i] && (a.isSpace(s[i]) ==> s[i] == ' '))
    && (s != [] ==> s[0] != ' ')
    && (forall i :: 0 < i < |s| ==> !(s[i - 1] == ' ' && s[i] == ' '))
  }

  /** The normal form. */
  ghost predicate IsNormal(a: Alphabet, s: string) {
    IsSqueezed(a, s) && (s != [] ==> s[|s| - 1] != ' ')
  }

  lemma {:induction false} SqueezeIsSqueezed(a: Alphabet, s: string)
    requires ValidAlphabet(a)
    ensures IsSqueezed(a, Squeeze(a, s))
  {
    if s != [] {
      SqueezeIsSqueezed(a, s[..|s| - 1]);
    }
  }

  lemma NormalizeIsNormal(a: Alphabet, s: string)
    requires ValidAlphabet(a)
    ensures IsNormal(a, Normalize(a, s))
  {
    SqueezeIsSqueezed(a, s);
  }

  lemma SqueezedFront(a: Alphabet, s: string)
    requires IsSqueezed(a, s) && s != []
    ensures IsSqueezed(a, s[..|s| - 1])
  {
  }

  /** Nothing to fold or squeeze at the end. */
  lemma SqueezeOneMore(a: Alphabet, front: string, c: char)
    requires IsSqueezed(a, front + [c]) && Squeeze(a, front) == front
    ensures Squeeze(a, front + [c]) == front + [c]
  {
    var s := front + [c];
    assert s[..|s| - 1] == front && s[|s| - 1] == c;
    if front != [] {
      assert s[|s| - 2] == front[|front| - 1];
    } else {
      assert s[0] == c;
    }
  }

  lemma {:induction false} SqueezedIsFixed(a: Alphabet, s: string)
    requires IsSqueezed(a, s)
    ensures Squeeze(a, s) == s
  {
    if s != [] {
      var front := s[..|s| - 1];
      SqueezedFront(a, s);
      SqueezedIsFixed(a, front);
      assert s == front + [s[|s| - 1]];
      SqueezeOneMore(a, front, s[|s| - 1]);
    }
  }

  /** Normalizing twice changes nothing more. */
  lemma NormalizeIdempotent(a: Alphabet, s: string)
    requires ValidAlphabet(a)
    ensures Normalize(a, Normalize(a, s)) == Normalize(a, s)
  {
    NormalizeIsNormal(a, s);
    SqueezedIsFixed(a, Normalize(a, s));
  }

  function StripLeft(a: Alphabet, s: string): string {
    if s != [] && a.isSpace(s[0]) then StripLeft(a, s[1..]) else s
  }

  function StripRight(a: Alphabet, s: string): string {
    if s != [] && a.isSpace(s[|s| - 1]) then StripRight(a, s[..|s| - 1]) else s
  }

  /** `str.strip`. */
  function Strip(a: Alphabet, s: string): string {
    StripRight(a, StripLeft(a, s))
  }

  lemma {:induction false} StripRightEnds(a: Alphabet, s: string)
    ensures var r := StripRight(a, s); r <= s && (r != [] ==> !a.isSpace(r[|r| - 1]))
  {
    if s != [] && a.isSpace(s[|s| - 1]) {
      StripRightEnds(a, s[..|s| - 1]);
    }
  }

  lemma {:induction false} StripLeftStarts(a: Alphabet, s: string)
    ensures var r := StripLeft(a, s); r == [] || !a.isSpace(r[0])
  {
    if s != [] && a.isSpace(s[0]) {
      StripLeftStarts(a, s[1..]);
    }
  }

  lemma StripIdempotent(a: Alphabet, s: string)
    ensures Strip(a, Strip(a, s)) == Strip(a, s)
  {
    StripLeftStarts(a, s);
    StripRightEnds(a, StripLeft(a, s));
  }

  lemma {:induction false} SqueezeLeadingSpace(a: Alphabet, c: char, s: string)
    requires ValidAlphabet(a) && a.isSpace(c)
    ensures Squeeze(a, [c] + s) == Squeeze(a, s)
  {
    if s == [] {
      assert [c] + s == [c];
      assert Squeeze(a, [c][..0]) == [];
    } else {
      SqueezeLeadingSpace(a, c, s[..|s| - 1]);
      assert ([c] + s)[..|s|] == [c] + s[..|s| - 1];
    }
  }

  lemma {:induction false} NormalizeStripLeft(a: Alphabet, s: string)
    requires ValidAlphabet(a)
    ensures Normalize(a, StripLeft(a, s)) == Normalize(a, s)
  {
    if s != [] && a.isSpace(s[0]) {
      NormalizeStripLeft(a, s[1..]);
      SqueezeLeadingSpace(a, s[0], s[1..]);
      assert s == [s[0]] + s[1..];
    }
  }

  lemma {:induction false} NormalizeStripRight(a: Alphabet, s: string)
    requires ValidAlphabet(a)
    ensures Normalize(a, StripRight(a, s)) == Normalize(a, s)
  {
    if s != [] && a.isSpace(s[|s| - 1]) {
      NormalizeStripRight(a, s[..|s| - 1]);
      SqueezeIsSqueezed(a, s[..|s| - 1]);
    }
  }

  /** Surrounding blanks do not matter to the normal form. */
  lemma NormalizeStrip(a: Alphabet, s: string)
    requires ValidAlphabet(a)
    ensures Normalize(a, Strip(a, s)) == Normalize(a, s)
  {
    NormalizeStripLeft(a, s);
    NormalizeStripRight(a, StripLeft(a, s));
  }

  /** A match of the pattern (?<!\w)phrase(?!\w) at position `i`. */
  predicate OccursAt(a: Alphabet, message: string, phrase: string, i: nat) {
    && i + |phrase| <= |message| && message[i..i + |phrase|] == phrase
    && (i > 0 ==> !a.isWord(message[i - 1]))
    && (i + |phrase| < |message| ==> !a.isWord(message[i + |phrase|]))
  }

  predicate Contains(a: Alphabet, message: string, phrase: string) {
    phrase != [] && exists i | 0 <= i <= |message| :: OccursAt(a, message, phrase, i)
  }

  /** `phrase_is_present`. */
  predicate PhraseIsPresent(a: Alphabet, message: string, phrase: string) {
    Contains(a, Normalize(a, message), Normalize(a, phrase))
  }

  /** Containment of non-empty phrases is a partial order. */
  lemma ContainsIsReflexive(a: Alphabet, p: string)
    requires p != []
    ensures Contains(a, p, p)
  {
    assert OccursAt(a, p, p, 0);
  }

  lemma ContainsIsAntisymmetric(a: Alphabet, p: string, q: string)
    requires Contains(a, p, q) && Contains(a, q, p)
    ensures p == q
  {
    var i: nat :| i <= |p| && OccursAt(a, p, q, i);
    var j: nat :| j <= |q| && OccursAt(a, q, p, j);
  }

  lemma ContainsIsTransitive(a: Alphabet, p: string, q: string, r: string)
    requires Contains(a, p, q) && Contains(a, q, r)
    ensures Contains(a, p, r)
  {
    var i: nat :| i <= |p| && OccursAt(a, p, q, i);
    var j: nat :| j <= |q| && OccursAt(a, q, r, j);
    forall k | 0 <= k < |r|
      ensures p[i + j..i + j + |r|][k] == r[k]
    {
      assert q[j..j + |r|][k] == q[j + k] && p[i..i + |q|][j + k] == p[i + (j + k)];
    }
    if j > 0 {
      assert p[i + j - 1] == q[j - 1];
    }
    if j + |r| < |q| {
      assert p[i + j + |r|] == q[j + |r|];
    }
    assert OccursAt(a, p, r, i + j);
  }

  function Fold(a: Alphabet, s: string): string {
    seq(|s|, i requires 0 <= i < |s| => a.fold(s[i]))
  }

  predicate EndsBlank(a: Alphabet, s: string) {
    s == [] || a.isSpace(s[|s| - 1])
  }

  predicate StartsBlank(a: Alphabet, s: string) {
    s == [] || a.isSpace(s[0])
  }

  /** One more character: a new word after a blank, or one more letter of the last word. */
  function AddChar(a: Alphabet, words: seq<string>, blank: bool, c: char): seq<string> {
    if a.isSpace(c) then words
    else if blank || words == [] then words + [[c]]
    else words[..|words| - 1] + [words[|words| - 1] + [c]]
  }

  /** `str.split()`: the words between the blanks. */
  function Words(a: Alphabet, s: string): seq<string> {
    if s == [] then [] else AddChar(a, Words(a, s[..|s| - 1]), EndsBlank(a, s[..|s| - 1]), s[|s| - 1])
  }

  /** The words with one space between them. */
  function Join(words: seq<string>): string {
    if words == [] then []
    else if |words| == 1 then words[0]
    else Join(words[..|words| - 1]) + [' '] + words[|words| - 1]
  }

  lemma JoinOneMore(words: seq<string>, w: string)
    ensures Join(words + [w]) == if words == [] then w else Join(words) + [' '] + w
  {
    assert (words + [w])[..|words|] == words;
  }

  lemma JoinLonger(front: seq<string>, w: string, c: char)
    ensures Join(front + [w + [c]]) == Join(front + [w]) + [c]
  {
    JoinOneMore(front, w);
    JoinOneMore(front, w + [c]);
    if front != [] {
      assert Join(front) + [' '] + (w + [c]) == (Join(front) + [' '] + w) + [c];
    }
  }

  lemma JoinAddChar(a: Alphabet, words: seq<string>, blank: bool, c: char)
    requires !a.isSpace(c)
    ensures Join(AddChar(a, words, blank, c)) == if words == [] then [c] else Join(words) + (if blank then [' '] else []) + [c]
  {
    if words == [] || blank {
      JoinOneMore(words, [c]);
    } else {
      var front, w := words[..|words| - 1], words[|words| - 1];
      assert words == front + [w];
      JoinLonger(front, w, c);
    }
  }

  /** The words of the folded text, joined. */
  ghost predicate Squeezed(a: Alphabet, f: string, words: seq<string>, squeezed: string) {
    && squeezed == Join(words) + (if words != [] && EndsBlank(a, f) then [' '] else [])
    && (words == [] ==> EndsBlank(a, f))
    && (words != [] ==> Join(words) != [] && !a.isSpace(Join(words)[|Join(words)| - 1]))
  }

  lemma {:induction false} SqueezeIsJoin(a: Alphabet, s: string)
    requires ValidAlphabet(a)
    ensures Squeezed(a, Fold(a, s), Words(a, Fold(a, s)), Squeeze(a, s))
  {
    if s != [] {
      var front, c := s[..|s| - 1], a.fold(s[|s| - 1]);
      SqueezeIsJoin(a, front);
      assert Fold(a, s) == Fold(a, front) + [c];
      SqueezedOneMore(a, Fold(a, front), Words(a, Fold(a, front)), Squeeze(a, front), c);
      assert Fold(a, s)[..|Fold(a, front)|] == Fold(a, front);
    }
  }

  lemma SqueezedOneMore(a: Alphabet, f: string, words: seq<string>, done: string, c: char)
    requires ValidAlphabet(a) && Squeezed(a, f, words, done)
    ensures Squeezed(a, f + [c], AddChar(a, words, EndsBlank(a, f), c),
                     if !a.isSpace(c) then done + [c] else if done == [] || done[|done| - 1] == ' ' then done else done + [' '])
  {
    if !a.isSpace(c) {
      JoinAddChar(a, words, EndsBlank(a, f), c);
    } else {
      assert words == [] ==> done == [];
    }
  }

  /** The normal form of a text is the words of its folded characters with one space between them. */
  lemma NormalizeIsJoin(a: Alphabet, s: string)
    requires ValidAlphabet(a)
    ensures Normalize(a, s) == Join(Words(a, Fold(a, s)))
  {
    SqueezeIsJoin(a, s);
  }

  lemma WordsOfSnoc(a: Alphabet, s: string, c: char)
    ensures Words(a, s + [c]) == AddChar(a, Words(a, s), EndsBlank(a, s), c)
  {
    assert (s + [c])[..|s|] == s;
  }

  lemma SplitEnd<T>(s: seq<T>, t: seq<T>)
    requires t != []
    ensures s + t == (s + t[..|t| - 1]) + [t[|t| - 1]]
  {
    forall i | 0 <= i < |s + t|
      ensures (s + t)[i] == ((s + t[..|t| - 1]) + [t[|t| - 1]])[i]
    {
    }
  }

  /** A text with a blank at the seam has the words of its parts. */
  lemma {:induction false} WordsOfParts(a: Alphabet, s: string, t: string)
    requires EndsBlank(a, s) || StartsBlank(a, t)
    ensures Words(a, s + t) == Words(a, s) + Words(a, t)
    decreases |t|
  {
    if t == [] {
      assert s + t == s;
    } else {
      var front, c := t[..|t| - 1], t[|t| - 1];
      WordsOfParts(a, s, front);
      SplitEnd(s, t);
      SplitEnd([], t);
      WordsOfSnoc(a, s + front, c);
      WordAtEnd(a, front);
      AddCharToParts(a, Words(a, s), Words(a, front), EndsBlank(a, s + front), EndsBlank(a, front), c);
    }
  }

  lemma AddCharToParts(a: Alphabet, before: seq<string>, words: seq<string>, blankBoth: bool, blank: bool, c: char)
    requires words != [] || blank
    requires a.isSpace(c) || blankBoth == blank || before + words == []
    ensures AddChar(a, before + words, blankBoth, c) == before + AddChar(a, words, blank, c)
  {
    if words != [] {
      assert (before + words)[|before + words| - 1] == words[|words| - 1];
      assert (before + words)[..|before + words| - 1] == before + words[..|words| - 1];
    }
  }

  lemma {:induction false} WordAtEnd(a: Alphabet, s: string)
    ensures Words(a, s) != [] || EndsBlank(a, s)
  {
    if s != [] {
      WordAtEnd(a, s[..|s| - 1]);
    }
  }

  lemma FoldFixed(a: Alphabet, s: string)
    requires forall i :: 0 <= i < |s| ==> a.fold(s[i]) == s[i]
    ensures Fold(a, s) == s
  {
  }

  lemma NormalIsJoin(a: Alphabet, s: string)
    requires ValidAlphabet(a) && IsNormal(a, s)
    ensures s == Join(Words(a, s))
  {
    FoldFixed(a, s);
    SqueezedIsFixed(a, s);
    NormalizeIsJoin(a, s);
  }

  lemma Regroup(p: string, q: string, w: string)
    ensures p + [' '] + q + [' '] + w == p + [' '] + (q + [' '] + w)
  {
  }

  lemma {:induction false} JoinParts(u: seq<string>, v: seq<string>)
    requires u != [] && v != []
    ensures Join(u + v) == Join(u) + [' '] + Join(v)
    decreases |v|
  {
    var front, last := v[..|v| - 1], v[|v| - 1];
    SplitEnd(u, v);
    SplitEnd([], v);
    JoinOneMore(u + front, last);
    JoinOneMore(front, last);
    if front != [] {
      JoinParts(u, front);
      Regroup(Join(u), Join(front), last);
    } else {
      assert u + front == u;
    }
  }

  /** Every character is a word character or a blank. */
  ghost predicate Plain(a: Alphabet, s: string) {
    forall i :: 0 <= i < |s| ==> a.isWord(s[i]) || a.isSpace(s[i])
  }

  ghost predicate WordsAt(words: seq<string>, part: seq<string>, k: nat) {
    k + |part| <= |words| && words[k..k + |part|] == part
  }

  lemma PartsHaveWords(a: Alphabet, pre: string, phrase: string, post: string)
    requires EndsBlank(a, pre) && StartsBlank(a, post)
    ensures Words(a, pre + (phrase + post)) == Words(a, pre) + (Words(a, phrase) + Words(a, post))
  {
    WordsOfParts(a, phrase, post);
    WordsOfParts(a, pre, phrase + post);
  }

  lemma MiddleAt(words: seq<string>, before: seq<string>, part: seq<string>, after: seq<string>)
    requires words == before + (part + after)
    ensures WordsAt(words, part, |before|)
  {
  }

  lemma ThreeParts<T>(s: seq<T>, i: nat, j: nat)
    requires i <= j <= |s|
    ensures s == s[..i] + (s[i..j] + s[j..])
  {
  }

  lemma OccurrenceHasWords(a: Alphabet, message: string, phrase: string, i: nat) returns (k: nat)
    requires Plain(a, message) && OccursAt(a, message, phrase, i)
    ensures WordsAt(Words(a, message), Words(a, phrase), k)
  {
    var pre, post := message[..i], message[i + |phrase|..];
    ThreeParts(message, i, i + |phrase|);
    PartsHaveWords(a, pre, phrase, post);
    MiddleAt(Words(a, message), Words(a, pre), Words(a, phrase), Words(a, post));
    k := |Words(a, pre)|;
  }

  /** A text with `phrase` between spaces or its ends. */
  lemma ContainsBetween(a: Alphabet, text: string, pre: string, phrase: string, post: string)
    requires ValidAlphabet(a) && phrase != [] && text == pre + (phrase + post)
    requires (pre == [] || pre[|pre| - 1] == ' ') && (post == [] || post[0] == ' ')
    ensures Contains(a, text, phrase)
  {
    assert OccursAt(a, text, phrase, |pre|);
  }

  lemma JoinBefore(before: seq<string>, part: seq<string>) returns (pre: string)
    requires part != []
    ensures Join(before + part) == pre + Join(part) && (pre == [] || pre[|pre| - 1] == ' ')
  {
    if before != [] {
      JoinParts(before, part);
      pre := Join(before) + [' '];
    } else {
      assert before + part == part;
      pre := [];
    }
  }

  lemma JoinAfter(part: seq<string>, after: seq<string>) returns (post: string)
    requires part != []
    ensures Join(part + after) == Join(part) + post && (post == [] || post[0] == ' ')
  {
    if after != [] {
      JoinParts(part, after);
      post := [' '] + Join(after);
      assert Join(part) + [' '] + Join(after) == Join(part) + post;
    } else {
      assert part + after == part;
      post := [];
    }
  }

  lemma WordsOccur(a: Alphabet, before: seq<string>, part: seq<string>, after: seq<string>)
    requires ValidAlphabet(a) && part != [] && Join(part) != []
    ensures Contains(a, Join(before + (part + after)), Join(part))
  {
    var pre := JoinBefore(before, part + after);
    var post := JoinAfter(part, after);
    ContainsBetween(a, Join(before + (part + after)), pre, Join(part), post);
  }

  ghost predicate InARow(words: seq<string>, part: seq<string>) {
    exists k: nat :: WordsAt(words, part, k)
  }

  lemma SplitRow(words: seq<string>, part: seq<string>) returns (before: seq<string>, after: seq<string>)
    requires InARow(words, part)
    ensures words == before + (part + after)
  {
    var k: nat :| WordsAt(words, part, k);
    before, after := words[..k], words[k + |part|..];
    ThreeParts(words, k, k + |part|);
  }

  lemma RowOccurs(a: Alphabet, message: string, phrase: string)
    requires ValidAlphabet(a) && IsNormal(a, message) && IsNormal(a, phrase) && phrase != []
    requires InARow(Words(a, message), Words(a, phrase))
    ensures Contains(a, message, phrase)
  {
    NormalIsJoin(a, message);
    NormalIsJoin(a, phrase);
    var before, after := SplitRow(Words(a, message), Words(a, phrase));
    WordsOccur(a, before, Words(a, phrase), after);
  }

  /** Between plain normal forms, containing a phrase is having its words in a row: no word is found inside another. */
  lemma ContainsIsWordsInARow(a: Alphabet, message: string, phrase: string)
    requires ValidAlphabet(a) && IsNormal(a, message) && IsNormal(a, phrase) && phrase != [] && Plain(a, message)
    ensures Contains(a, message, phrase) <==> InARow(Words(a, message), Words(a, phrase))
  {
    if Contains(a, message, phrase) {
      var i: nat :| i <= |message| && OccursAt(a, message, phrase, i);
      var k := OccurrenceHasWords(a, message, phrase, i);
    }
    if InARow(Words(a, message), Words(a, phrase)) {
      RowOccurs(a, message, phrase);
    }
  }
}
