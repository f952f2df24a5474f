/**
 Whole-word keyword matching by substring (contentfilter/keywords.go). Text and keyword are
 both reduced to words with single spaces between and around them, and a keyword matches
 where its reduced form occurs. A keyword's end in a continuous script drops its space.

 Runes are taken after compatibility normalisation, which is a parameter, and come with
 the class the filter gives them.
 */
module Keywords {
  import opened Bytes

  /** A character of reduced text: the space, or a lower-cased rune, of a continuous script or not. */
  datatype Ch = Space | Sym(code: nat, cont: bool)

  /** A rune: a gap, a letter or digit, a combining mark. */
  datatype Rune = Gap | Letter(ch: Ch) | Mark(ch: Ch)

  datatype Class = ClassSpace | ClassWord | ClassCont

  function ClassOf(r: Rune): Class {
    if r.Gap? then ClassSpace else if r.ch.Sym? && r.ch.cont then ClassCont else ClassWord
  }

  /** Letters and marks are never the space. */
  predicate Proper(text: seq<Rune>) {
    forall i :: 0 <= i < |text| ==> text[i].Letter? || text[i].Mark? ==> text[i].ch.Sym?
  }

  // ---------------------------------------------------------------- the words of a text

  type Word = seq<Ch>

  ghost predicate IsWord(w: Word) { w != [] && Space !in w }

  ghost predicate AllWords(ws: seq<Word>) { forall i :: 0 <= i < |ws| ==> IsWord(ws[i]) }

  /** The words complete so far, the one under way, and the class of the last rune that set it. */
  datatype Cut = Cut(words: seq<Word>, last: Word, prev: Class) {
    function All(): seq<Word> { if last == [] then words else words + [last] }
  }

  /**
   A mark belongs to the rune before it; a gap ends a word, and so does a switch between a
   continuous script and any other letter.
   */
  function CutNext(c: Cut, r: Rune): Cut {
    if r.Mark? && !c.prev.ClassSpace? then c.(last := c.last + [r.ch])
    else
      var kind := ClassOf(r);
      if kind.ClassSpace? then Cut(c.All(), [], kind)
      else if c.prev.ClassSpace? || c.prev == kind then Cut(c.words, c.last + [r.ch], kind)
      else Cut(c.All(), [r.ch], kind)
  }

  function CutAll(text: seq<Rune>): Cut {
    if text == [] then Cut([], [], ClassSpace) else CutNext(CutAll(text[..|text| - 1]), text[|text| - 1])
  }

  function Words(text: seq<Rune>): seq<Word> { CutAll(text).All() }

  /** Each word with a space after it. */
  function Flat(ws: seq<Word>): seq<Ch> { if ws == [] then [] else ws[0] + [Space] + Flat(ws[1..]) }

  function Padded(ws: seq<Word>): seq<Ch> { [Space] + Flat(ws) }

  lemma {:induction false} FlatConcat(a: seq<Word>, b: seq<Word>)
    ensures Flat(a + b) == Flat(a) + Flat(b)
  {
    if a == [] {
      assert a + b == b;
    } else {
      assert (a + b)[1..] == a[1..] + b;
      FlatConcat(a[1..], b);
    }
  }

  lemma FlatSnoc(ws: seq<Word>, w: Word)
    ensures Flat(ws + [w]) == Flat(ws) + w + [Space]
  {
    FlatConcat(ws, [w]);
    assert [w][1..] == [] && Flat([w]) == w + [Space] + [];
  }

  ghost predicate CutInv(c: Cut) {
    AllWords(c.words) && (c.last != [] ==> IsWord(c.last)) && (c.last == [] <==> c.prev.ClassSpace?)
  }

  lemma CutNextInv(c: Cut, r: Rune)
    requires CutInv(c) && (r.Letter? || r.Mark? ==> r.ch.Sym?)
    ensures CutInv(CutNext(c, r))
  {
  }

  lemma {:induction false} CutAllInv(text: seq<Rune>)
    requires Proper(text)
    ensures CutInv(CutAll(text))
  {
    if text != [] {
      CutAllInv(text[..|text| - 1]);
      CutNextInv(CutAll(text[..|text| - 1]), text[|text| - 1]);
    }
  }

  // ---------------------------------------------------------------- where a word begins

  /** The rune whose script a rune goes by: its own, or for a mark that of the rune it sits on. */
  function Bearer(text: seq<Rune>, i: nat): (b: nat)
    requires i < |text|
    ensures b <= i
  {
    if text[i].Mark? && i > 0 && !text[i - 1].Gap? then Bearer(text, i - 1) else i
  }

  predicate Continuous(r: Rune) { !r.Gap? && r.ch.Sym? && r.ch.cont }

  /** Two neighbouring runes are of one word: no gap, and the second is a mark or of the same kind of script. */
  predicate OneWord(text: seq<Rune>, i: nat)
    requires i + 1 < |text|
  {
    && !text[i].Gap? && !text[i + 1].Gap?
    && (text[i + 1].Mark? || Continuous(text[Bearer(text, i)]) == Continuous(text[i + 1]))
  }

  /** The words are the longest runs of such neighbours. */
  function Runs(text: seq<Rune>): (ws: seq<Word>)
    ensures text != [] && !text[|text| - 1].Gap? ==> ws != []
  {
    if text == [] then []
    else
      var n := |text| - 1;
      var ws := Runs(text[..n]);
      if text[n].Gap? then ws
      else if n > 0 && OneWord(text, n - 1) then ws[..|ws| - 1] + [ws[|ws| - 1] + [text[n].ch]]
      else ws + [[text[n].ch]]
  }

  ghost predicate Tracks(c: Cut, text: seq<Rune>) {
    if text == [] || text[|text| - 1].Gap? then c.prev.ClassSpace?
    else c.prev == if Continuous(text[Bearer(text, |text| - 1)]) then ClassCont else ClassWord
  }

  lemma BearerBefore(text: seq<Rune>, n: nat, i: nat)
    requires i < n <= |text|
    ensures Bearer(text[..n], i) == Bearer(text, i)
  {
    if text[i].Mark? && i > 0 && !text[i - 1].Gap? { BearerBefore(text, n, i - 1); }
  }

  /** One more rune joins the word under way exactly when it is of one word with the rune before it. */
  lemma CutJoins(c: Cut, text: seq<Rune>)
    requires text != [] && Proper(text) && CutInv(c) && Tracks(c, text[..|text| - 1])
    ensures var n := |text| - 1;
            var d := CutNext(c, text[n]);
            && Tracks(d, text)
            && (if text[n].Gap? then d.All() == c.All()
                else if n > 0 && OneWord(text, n - 1) then c.last != [] && d.words == c.words && d.last == c.last + [text[n].ch]
                else d.All() == c.All() + [[text[n].ch]])
  {
    var n := |text| - 1;
    if n > 0 {
      BearerBefore(text, n, n - 1);
      assert text[..n][n - 1] == text[n - 1];
    }
    assert Bearer(text, n) == if text[n].Mark? && n > 0 && !text[n - 1].Gap? then Bearer(text, n - 1) else n;
    hide Bearer, CutInv, Proper;
    assert c.last == [] <==> c.prev.ClassSpace? by { CutInvLast(c); }
    assert !text[n].Gap? ==> text[n].ch.Sym? by { ProperAt(text, n); }
    if !text[n].Gap? && c.last == [] { assert c.last + [text[n].ch] == [text[n].ch]; }
  }

  lemma CutInvLast(c: Cut)
    requires CutInv(c)
    ensures c.last == [] <==> c.prev.ClassSpace?
  {
  }

  lemma ProperAt(text: seq<Rune>, n: nat)
    requires Proper(text) && n < |text|
    ensures !text[n].Gap? ==> text[n].ch.Sym?
  {
  }

  /** The words of a text are its runs. */
  lemma {:induction false} WordsAreRuns(text: seq<Rune>)
    requires Proper(text)
    ensures Words(text) == Runs(text) && Tracks(CutAll(text), text)
    decreases text
  {
    if text == [] { return; }
    var n := |text| - 1;
    CutAllInv(text[..n]);
    WordsAreRuns(text[..n]);
    var c := CutAll(text[..n]);
    assert CutAll(text) == CutNext(c, text[n]);
    CutJoins(c, text);
    hide CutAll, Tracks, CutNext, CutInv, OneWord;
    if c.last != [] {
      assert c.All()[..|c.words|] == c.words && c.All()[|c.words|] == c.last;
    }
  }

  /** What the loop has written: every complete word spaced, and the one under way. */
  function Written(c: Cut): seq<Ch> { Padded(c.words) + c.last }

  lemma WrittenNext(c: Cut, r: Rune)
    requires CutInv(c)
    ensures var d := CutNext(c, r);
            var kind := ClassOf(r);
            Written(d) ==
            Written(c) +
            if r.Mark? && !c.prev.ClassSpace? then [r.ch]
            else if kind.ClassSpace? then (if c.prev.ClassSpace? then [] else [Space])
            else if c.prev.ClassSpace? || c.prev == kind then [r.ch]
            else [Space, r.ch]
  {
    if c.last != [] {
      FlatSnoc(c.words, c.last);
    }
  }

  /** normalize: single-space-separated words with a space at each end, one space when there is no word. */
  method Normalize(text: seq<Rune>) returns (out: seq<Ch>)
    requires Proper(text)
    ensures out == Padded(Words(text)) && AllWords(Words(text))
  {
    CutNone();
    hide Written, CutNext, CutAll, Padded;
    out := [Space];
    var prev := ClassSpace;
    assert text[..0] == [];
    for i := 0 to |text|
      invariant out == Written(CutAll(text[..i])) && prev == CutAll(text[..i]).prev
    {
      var r := text[i];
      CutAllInv(text[..i]);
      CutAllNext(text, i);
      WrittenNext(CutAll(text[..i]), r);
      var kind := ClassOf(r);
      if r.Mark? && prev != ClassSpace {
        out := out + [r.ch];
        continue;
      }
      if kind == ClassSpace {
        if prev != ClassSpace {
          out := out + [Space];
        }
      } else {
        if prev != ClassSpace && prev != kind {
          out := out + [Space];
        }
        out := out + [r.ch];
      }
      prev := kind;
    }
    assert text[..|text|] == text;
    CutAllInv(text);
    WrittenDone(CutAll(text));
    if prev != ClassSpace {
      out := out + [Space];
    }
  }

  lemma CutNone()
    ensures CutAll([]).prev.ClassSpace? && Written(CutAll([])) == [Space]
  {
  }

  lemma WrittenDone(c: Cut)
    requires CutInv(c)
    ensures Padded(c.All()) == Written(c) + (if c.prev.ClassSpace? then [] else [Space]) && AllWords(c.All())
  {
    if c.last != [] { FlatSnoc(c.words, c.last); }
  }

  lemma CutAllNext(text: seq<Rune>, i: nat)
    requires i < |text|
    ensures CutAll(text[..i + 1]) == CutNext(CutAll(text[..i]), text[i])
    ensures var c := CutAll(text[..i]);
            CutAll(text[..i + 1]).prev == if text[i].Mark? && !c.prev.ClassSpace? then c.prev else ClassOf(text[i])
  {
    assert text[..i + 1][..i] == text[..i];
  }

  // ---------------------------------------------------------------- what a pattern finds

  predicate Contains(s: seq<Ch>, p: seq<Ch>) { exists i :: 0 <= i <= |s| && p <= s[i..] }

  /** A pattern: the words with a space between them, and one at each end that keeps it. */
  function Body(ws: seq<Word>, tail: bool): seq<Ch>
    requires ws != []
  {
    if |ws| == 1 then ws[0] + (if tail then [Space] else []) else ws[0] + [Space] + Body(ws[1..], tail)
  }

  function PatternOf(ws: seq<Word>, head: bool, tail: bool): seq<Ch>
    requires ws != []
  {
    (if head then [Space] else []) + Body(ws, tail)
  }

  /** The words begin here; the last only has to begin with the last word when its end is open. */
  predicate Begins(ts: seq<Word>, ws: seq<Word>, tail: bool)
    requires ws != []
  {
    && ts != []
    && if |ws| == 1 then (if tail then ts[0] == ws[0] else ws[0] <= ts[0])
       else ts[0] == ws[0] && Begins(ts[1..], ws[1..], tail)
  }

  /** Two words that both end at their first space are equal when what they begin is. */
  lemma SameWord(t: Word, s: seq<Ch>, w: Word, p: seq<Ch>)
    requires Space !in t && Space !in w
    ensures w + [Space] + p <= t + [Space] + s <==> w == t && p <= s
    ensures w <= t + [Space] + s <==> w <= t
  {
    var x, y := t + [Space] + s, w + [Space] + p;
    assert x[|t|] == Space && x[..|t|] == t && x[|t| + 1..] == s;
    assert y[|w|] == Space && y[..|w|] == w && y[|w| + 1..] == p;
    assert forall k :: 0 <= k < |t| ==> x[k] == t[k] != Space;
    assert forall k :: 0 <= k < |w| ==> y[k] == w[k] != Space;
    if y <= x {
      assert x[|w|] == Space && |t| == |w|;
      assert w == x[..|w|] && p <= x[|w| + 1..];
    }
    if w <= x {
      assert forall k :: 0 <= k < |w| ==> x[k] == w[k];
    }
    if w <= t { assert w <= x; }
  }

  /** A pattern at the start of spaced words is those words. */
  lemma {:induction false} BodyBegins(ts: seq<Word>, ws: seq<Word>, tail: bool)
    requires ws != [] && AllWords(ts) && AllWords(ws)
    ensures Body(ws, tail) <= Flat(ts) <==> Begins(ts, ws, tail)
    decreases ws
  {
    if ts == [] {
      assert |Body(ws, tail)| > 0;
    } else {
      assert IsWord(ts[0]) && IsWord(ws[0]);
      var s := Flat(ts[1..]);
      if |ws| == 1 {
        SameWord(ts[0], s, ws[0], []);
        assert ws[0] + [Space] + [] == ws[0] + [Space] && ws[0] + [] == ws[0];
      } else {
        SameWord(ts[0], s, ws[0], Body(ws[1..], tail));
        BodyBegins(ts[1..], ws[1..], tail);
      }
    }
  }

  /** Where a position in spaced words falls: in, or at the end of, one of them. */
  lemma {:induction false} Locate(ts: seq<Word>, i: nat) returns (k: nat, j: nat)
    requires i < |Flat(ts)|
    ensures k < |ts| && j <= |ts[k]| && Flat(ts)[i..] == ts[k][j..] + [Space] + Flat(ts[k + 1..])
    ensures Flat(ts)[i] == if j < |ts[k]| then ts[k][j] else Space
    decreases ts
  {
    var t := ts[0];
    if i <= |t| {
      k, j := 0, i;
    } else {
      k, j := Locate(ts[1..], i - |t| - 1);
      assert Flat(ts)[i..] == Flat(ts[1..])[i - |t| - 1..];
      assert ts[1..][k] == ts[k + 1] && ts[1..][k + 1..] == ts[k + 2..];
      k := k + 1;
    }
  }

  /** And every place in a word is such a position. */
  lemma {:induction false} Position(ts: seq<Word>, k: nat, j: nat) returns (i: nat)
    requires k < |ts| && j <= |ts[k]|
    ensures i < |Flat(ts)| && Flat(ts)[i..] == ts[k][j..] + [Space] + Flat(ts[k + 1..])
    decreases k
  {
    if k == 0 {
      i := j;
    } else {
      i := Position(ts[1..], k - 1, j);
      assert ts[1..][k - 1] == ts[k] && ts[1..][k..] == ts[k + 1..];
      assert Flat(ts)[i + |ts[0]| + 1..] == Flat(ts[1..])[i..];
      i := i + |ts[0]| + 1;
    }
  }

  /** The keyword's words, consecutive in the text; an open end may lie inside a word. */
  ghost predicate Occurs(ts: seq<Word>, ws: seq<Word>, head: bool, tail: bool)
    requires ws != []
  {
    if head then exists k :: 0 <= k < |ts| && Begins(ts[k..], ws, tail)
    else exists k, j :: 0 <= k < |ts| && 0 <= j < |ts[k]| && Begins([ts[k][j..]] + ts[k + 1..], ws, tail)
  }

  lemma SuffixWords(ts: seq<Word>, k: nat, j: nat)
    requires AllWords(ts) && k < |ts| && j < |ts[k]|
    ensures AllWords([ts[k][j..]] + ts[k + 1..])
    ensures Flat([ts[k][j..]] + ts[k + 1..]) == ts[k][j..] + [Space] + Flat(ts[k + 1..])
  {
    assert IsWord(ts[k]);
    var us := [ts[k][j..]] + ts[k + 1..];
    assert us[1..] == ts[k + 1..];
    forall i | 0 <= i < |us| ensures IsWord(us[i]) {
      if i > 0 { assert us[i] == ts[k + i]; }
    }
  }

  /** A pattern with both its spaces, or with the first of them, starts at the space before a word. */
  lemma HeadFinds(ts: seq<Word>, ws: seq<Word>, tail: bool)
    requires ws != [] && AllWords(ts) && AllWords(ws)
    ensures Contains(Padded(ts), PatternOf(ws, true, tail)) <==> Occurs(ts, ws, true, tail)
  {
    hide Body, Begins;
    var s, p := Padded(ts), PatternOf(ws, true, tail);
    assert p[0] == Space && p[1..] == Body(ws, tail);
    if Contains(s, p) {
      var i :| 0 <= i <= |s| && p <= s[i..];
      var k := SpaceBefore(ts, i);
      assert Body(ws, tail) <= Flat(ts[k..]);
      BodyBegins(ts[k..], ws, tail);
      BeginsSome(ts[k..], ws, tail);
    }
    if Occurs(ts, ws, true, tail) {
      var k :| 0 <= k < |ts| && Begins(ts[k..], ws, tail);
      BodyBegins(ts[k..], ws, tail);
      var i := SpaceAt(ts, k);
      assert p <= s[i..];
    }
  }

  lemma BeginsSome(ts: seq<Word>, ws: seq<Word>, tail: bool)
    requires ws != [] && Begins(ts, ws, tail)
    ensures ts != []
  {
  }

  lemma SpaceBefore(ts: seq<Word>, i: nat) returns (k: nat)
    requires AllWords(ts) && i < |Padded(ts)| && Padded(ts)[i] == Space
    ensures k <= |ts| && Padded(ts)[i..] == [Space] + Flat(ts[k..])
  {
    if i == 0 {
      k := 0;
      assert ts[0..] == ts;
    } else {
      var j;
      k, j := Locate(ts, i - 1);
      assert IsWord(ts[k]) && Padded(ts)[i..] == Flat(ts)[i - 1..];
      assert j == |ts[k]| && ts[k][|ts[k]|..] == [];
      k := k + 1;
    }
  }

  lemma SpaceAt(ts: seq<Word>, k: nat) returns (i: nat)
    requires k < |ts|
    ensures i < |Padded(ts)| && Padded(ts)[i..] == [Space] + Flat(ts[k..])
  {
    if k == 0 {
      i := 0;
      assert ts[0..] == ts;
    } else {
      i := Position(ts, k - 1, |ts[k - 1]|);
      assert Padded(ts)[i + 1..] == Flat(ts)[i..] && ts[k - 1][|ts[k - 1]|..] == [];
      i := i + 1;
    }
  }

  lemma FirstOfBody(ws: seq<Word>, tail: bool)
    requires ws != [] && AllWords(ws)
    ensures Body(ws, tail) != [] && Body(ws, tail)[0] != Space
  {
    assert IsWord(ws[0]) && ws[0][0] in ws[0];
  }

  lemma OpenOccurs(ts: seq<Word>, ws: seq<Word>, tail: bool, i: nat)
    requires ws != [] && AllWords(ts) && AllWords(ws) && i <= |Padded(ts)| && Body(ws, tail) <= Padded(ts)[i..]
    ensures Occurs(ts, ws, false, tail)
  {
    FirstOfBody(ws, tail);
    hide Begins, Body;
    assert i > 0 && Padded(ts)[i..] == Flat(ts)[i - 1..];
    var k, j := Locate(ts, i - 1);
    SuffixWords(ts, k, j);
    BodyBegins([ts[k][j..]] + ts[k + 1..], ws, tail);
  }

  /** A pattern without its first space starts inside a word. */
  lemma OpenFinds(ts: seq<Word>, ws: seq<Word>, tail: bool)
    requires ws != [] && AllWords(ts) && AllWords(ws)
    ensures Contains(Padded(ts), PatternOf(ws, false, tail)) <==> Occurs(ts, ws, false, tail)
  {
    hide Begins, Body;
    var s, p := Padded(ts), PatternOf(ws, false, tail);
    assert p == Body(ws, tail);
    if Contains(s, p) {
      var i :| 0 <= i <= |s| && p <= s[i..];
      OpenOccurs(ts, ws, tail, i);
    }
    if Occurs(ts, ws, false, tail) {
      var k, j :| 0 <= k < |ts| && 0 <= j < |ts[k]| && Begins([ts[k][j..]] + ts[k + 1..], ws, tail);
      SuffixWords(ts, k, j);
      BodyBegins([ts[k][j..]] + ts[k + 1..], ws, tail);
      var i := Position(ts, k, j);
      assert s[i + 1..] == Flat(ts)[i..];
    }
  }

  // ---------------------------------------------------------------- the matcher

  /** Whether a keyword's end is in a continuous script, which drops its space. */
  predicate OpenHead(ws: seq<Word>)
    requires ws != [] && ws[0] != []
  {
    ws[0][0].Sym? && ws[0][0].cont
  }

  predicate OpenTail(ws: seq<Word>)
    requires ws != [] && ws[|ws| - 1] != []
  {
    var w := ws[|ws| - 1];
    w[|w| - 1].Sym? && w[|w| - 1].cont
  }

  function PatternFor(ws: seq<Word>): seq<Ch>
    requires ws != [] && ws[0] != [] && ws[|ws| - 1] != []
  {
    PatternOf(ws, !OpenHead(ws), !OpenTail(ws))
  }

  /** The keyword's words are consecutive words of the text, up to its open ends. */
  ghost predicate Matches(text: seq<Rune>, keyword: seq<Rune>) {
    var ws := Words(keyword);
    ws != [] && AllWords(ws) && Occurs(Words(text), ws, !OpenHead(ws), !OpenTail(ws))
  }

  lemma {:induction false} BodyIsFlat(ws: seq<Word>)
    requires ws != []
    ensures Flat(ws) == Body(ws, true) && Body(ws, true) == Body(ws, false) + [Space]
  {
    if |ws| == 1 {
      assert ws[1..] == [] && ws[0] + [Space] + [] == ws[0] + [Space] && ws[0] + [] == ws[0];
    } else {
      BodyIsFlat(ws[1..]);
    }
  }

  lemma {:induction false} BodyEnds(ws: seq<Word>)
    requires ws != [] && AllWords(ws)
    ensures var b, w := Body(ws, false), ws[|ws| - 1];
            b != [] && w != [] && b[|b| - 1] == w[|w| - 1] && ws[0] != [] && b[0] == ws[0][0]
  {
    assert IsWord(ws[0]);
    if |ws| == 1 {
      assert ws[0] + [] == ws[0];
    } else {
      BodyEnds(ws[1..]);
      assert ws[1..][|ws| - 2] == ws[|ws| - 1];
    }
  }

  /** Dropping a space at either end of padded words gives the pattern without it. */
  lemma PaddedEnds(ws: seq<Word>)
    requires ws != [] && AllWords(ws)
    ensures var out, w := Padded(ws), ws[|ws| - 1];
            && |out| > 2 && ws[0] != [] && w != [] && out[1] == ws[0][0] && out[|out| - 2] == w[|w| - 1]
            && out[0..|out|] == PatternOf(ws, true, true) && out[1..|out|] == PatternOf(ws, false, true)
            && out[0..|out| - 1] == PatternOf(ws, true, false) && out[1..|out| - 1] == PatternOf(ws, false, false)
  {
    BodyIsFlat(ws);
    BodyEnds(ws);
    hide Body, Flat;
    var b := Body(ws, false);
    var out := Padded(ws);
    assert out == [Space] + b + [Space];
    assert out[0..|out|] == out && out[1..|out|] == b + [Space] && out[0..|out| - 1] == [Space] + b && out[1..|out| - 1] == b;
    assert [] + b == b && [] + (b + [Space]) == b + [Space] && [Space] + (b + [Space]) == out;
  }

  /** pattern: None when the keyword holds no word at all. */
  method Pattern(keyword: seq<Rune>) returns (p: Option<seq<Ch>>)
    requires Proper(keyword)
    ensures AllWords(Words(keyword))
    ensures p.None? <==> Words(keyword) == []
    ensures p.Some? ==>
              var ws := Words(keyword);
              ws[0] != [] && ws[|ws| - 1] != [] && p.value == PatternFor(ws)
  {
    var out := Normalize(keyword);
    ghost var ws := Words(keyword);
    if |out| == 1 {
      assert ws != [] ==> |Flat(ws)| > 0;
      return None;
    }
    PaddedEnds(ws);
    hide Padded, PatternOf, Words;
    var lo := if out[1].Sym? && out[1].cont then 1 else 0;
    var hi := if out[|out| - 2].Sym? && out[|out| - 2].cont then |out| - 1 else |out|;
    return Some(out[lo..hi]);
  }

  /** The compiled keywords. */
  class Matcher {
    const patterns: set<seq<Ch>>

    constructor (patterns: set<seq<Ch>>)
      ensures this.patterns == patterns
    {
      this.patterns := patterns;
    }

    method Match(text: seq<Rune>) returns (found: bool)
      requires Proper(text)
      ensures found <==> exists p :: p in patterns && Contains(Padded(Words(text)), p)
    {
      var normalised := Normalize(text);
      var todo := patterns;
      while todo != {}
        invariant todo <= patterns && forall p :: p in patterns && p !in todo ==> !Contains(normalised, p)
        decreases |todo|
      {
        var p :| p in todo;
        if Contains(normalised, p) {
          return true;
        }
        todo := todo - {p};
      }
      return false;
    }
  }

  /** A pattern is found exactly where the keyword's words are. */
  lemma PatternFinds(text: seq<Rune>, keyword: seq<Rune>)
    requires Proper(text) && AllWords(Words(text)) && AllWords(Words(keyword)) && Words(keyword) != []
    ensures var ws := Words(keyword);
            && ws[0] != [] && ws[|ws| - 1] != []
            && (Contains(Padded(Words(text)), PatternFor(ws)) <==> Matches(text, keyword))
  {
    hide Words, Contains, PatternOf, Occurs;
    var ws := Words(keyword);
    assert IsWord(ws[0]) && IsWord(ws[|ws| - 1]);
    if OpenHead(ws) {
      OpenFinds(Words(text), ws, !OpenTail(ws));
    } else {
      HeadFinds(Words(text), ws, !OpenTail(ws));
    }
  }

  /** A keyword whose ends both keep their space: its words, exactly, one after the other. */
  lemma {:induction false} ClosedBegins(ts: seq<Word>, ws: seq<Word>)
    requires ws != []
    ensures Begins(ts, ws, true) <==> ws <= ts
  {
    if ts != [] {
      assert ts == [ts[0]] + ts[1..] && ws == [ws[0]] + ws[1..];
      if |ws| > 1 { ClosedBegins(ts[1..], ws[1..]); }
    }
  }

  /** A keyword that is one word of a continuous script is found wherever a word of the text holds it. */
  lemma InsideWords(text: seq<Rune>, keyword: seq<Rune>, w: Word)
    requires Words(keyword) == [w] && IsWord(w) && w[0].Sym? && w[0].cont && w[|w| - 1].Sym? && w[|w| - 1].cont
    ensures Matches(text, keyword) <==>
            exists k, j :: 0 <= k < |Words(text)| && 0 <= j < |Words(text)[k]| && w <= Words(text)[k][j..]
  {
    hide Words;
    var ts := Words(text);
    forall k, j | 0 <= k < |ts| && 0 <= j < |ts[k]|
      ensures Begins([ts[k][j..]] + ts[k + 1..], [w], false) <==> w <= ts[k][j..]
    {
    }
  }

  lemma WholeWords(text: seq<Rune>, keyword: seq<Rune>)
    requires var ws := Words(keyword);
             && ws != [] && AllWords(ws) && ws[0] != [] && ws[|ws| - 1] != []
             && var first, last := ws[0][0], ws[|ws| - 1]; !(first.Sym? && first.cont) && !(last[|last| - 1].Sym? && last[|last| - 1].cont)
    ensures Matches(text, keyword) <==> exists k :: 0 <= k < |Words(text)| && Words(keyword) <= Words(text)[k..]
  {
    hide Begins, Words;
    var ts, ws := Words(text), Words(keyword);
    forall k | 0 <= k < |ts| ensures Begins(ts[k..], ws, true) <==> ws <= ts[k..] {
      ClosedBegins(ts[k..], ws);
    }
  }

  ghost predicate Compiled(keyword: seq<Rune>, p: seq<Ch>) {
    var ws := Words(keyword);
    ws != [] && AllWords(ws) && ws[0] != [] && ws[|ws| - 1] != [] && p == PatternFor(ws)
  }

  // ---------------------------------------------------------------- the configured line

  /** A character of the configured keywords, before normalisation. */
  datatype Raw = Bar | White | Char(code: nat)

  /** Compatibility normalisation, and the classes of what it gives. */
  type Nfkc = seq<Raw> -> seq<Rune>

  /** The entries between the bars. */
  function Split(line: seq<Raw>): (parts: seq<seq<Raw>>)
    ensures parts != []
  {
    if line == [] then [[]]
    else
      var n := |line| - 1;
      var parts := Split(line[..n]);
      if line[n].Bar? then parts + [[]]
      else parts[..|parts| - 1] + [parts[|parts| - 1] + [line[n]]]
  }

  function Joined(parts: seq<seq<Raw>>): seq<Raw>
    requires parts != []
  {
    if |parts| == 1 then parts[0] else Joined(parts[..|parts| - 1]) + [Bar] + parts[|parts| - 1]
  }

  /** Splitting loses nothing, and leaves no bar in an entry. */
  lemma {:induction false} SplitJoins(line: seq<Raw>)
    ensures Joined(Split(line)) == line
    ensures forall i :: 0 <= i < |Split(line)| ==> Bar !in Split(line)[i]
  {
    if line != [] {
      var n := |line| - 1;
      SplitJoins(line[..n]);
      var parts := Split(line[..n]);
      assert Split(line) == if line[n].Bar? then parts + [[]] else Grown(parts, line[n]);
      assert line == line[..n] + [line[n]];
      hide Split, Joined;
      if line[n].Bar? {
        JoinedEmpty(parts);
      } else {
        JoinedGrown(parts, line[n]);
      }
    }
  }

  function Grown(parts: seq<seq<Raw>>, r: Raw): seq<seq<Raw>>
    requires parts != []
  {
    parts[..|parts| - 1] + [parts[|parts| - 1] + [r]]
  }

  lemma JoinedEmpty(parts: seq<seq<Raw>>)
    requires parts != []
    ensures Joined(parts + [[]]) == Joined(parts) + [Bar]
  {
    assert (parts + [[]])[..|parts|] == parts;
  }

  lemma JoinedGrown(parts: seq<seq<Raw>>, r: Raw)
    requires parts != []
    ensures Joined(Grown(parts, r)) == Joined(parts) + [r]
  {
    assert Grown(parts, r)[..|parts| - 1] == parts[..|parts| - 1];
  }

  function TrimLeft(s: seq<Raw>): seq<Raw> { if s != [] && s[0].White? then TrimLeft(s[1..]) else s }

  function TrimRight(s: seq<Raw>): seq<Raw> {
    if s != [] && s[|s| - 1].White? then TrimRight(s[..|s| - 1]) else s
  }

  function Trimmed(s: seq<Raw>): seq<Raw> { TrimRight(TrimLeft(s)) }

  /** Trimming takes white space off both ends, all of it and nothing else. */
  lemma TrimmedEnds(s: seq<Raw>) returns (i: nat, j: nat)
    ensures i <= j <= |s| && Trimmed(s) == s[i..j]
    ensures forall k :: 0 <= k < i || j <= k < |s| ==> s[k].White?
    ensures i < j ==> !s[i].White? && !s[j - 1].White?
  {
    i := LeftEnd(s);
    var t := TrimLeft(s);
    var n := RightEnd(t);
    j := i + n;
    assert forall k :: j <= k < |s| ==> s[k] == t[k - i];
  }

  lemma {:induction false} LeftEnd(s: seq<Raw>) returns (i: nat)
    ensures i <= |s| && TrimLeft(s) == s[i..] && (i < |s| ==> !s[i].White?)
    ensures forall k :: 0 <= k < i ==> s[k].White?
  {
    if s != [] && s[0].White? {
      i := LeftEnd(s[1..]);
      assert forall k :: 1 <= k < |s| ==> s[k] == s[1..][k - 1];
      i := i + 1;
    } else {
      i := 0;
    }
  }

  lemma {:induction false} RightEnd(s: seq<Raw>) returns (j: nat)
    ensures j <= |s| && TrimRight(s) == s[..j] && (j > 0 ==> !s[j - 1].White?)
    ensures forall k :: j <= k < |s| ==> s[k].White?
  {
    if s != [] && s[|s| - 1].White? {
      j := RightEnd(s[..|s| - 1]);
    } else {
      j := |s|;
    }
  }

  /** The configured keywords: the entries that are not blank, normalised. */
  ghost predicate Configured(nfkc: Nfkc, line: seq<Raw>, keyword: seq<Rune>) {
    exists i :: 0 <= i < |Split(line)| && Trimmed(Split(line)[i]) != [] && nfkc(Trimmed(Split(line)[i])) == keyword
  }

  ghost predicate AllProper(nfkc: Nfkc) { forall s :: Proper(nfkc(s)) }

  /** An entry with no word is an error; a blank one is skipped. */
  method NewMatcher(nfkc: Nfkc, line: seq<Raw>) returns (m: Option<Matcher>)
    requires AllProper(nfkc)
    ensures m.None? <==> exists k :: Configured(nfkc, line, k) && Words(k) == []
    ensures m.Some? ==>
              && (forall p :: p in m.value.patterns ==> exists k :: Configured(nfkc, line, k) && Compiled(k, p))
              && (forall k :: Configured(nfkc, line, k) ==> exists p :: p in m.value.patterns && Compiled(k, p))
  {
    hide Words, PatternFor, Split, Trimmed;
    var patterns: set<seq<Ch>> := {};
    var parts := Split(line);
    for i := 0 to |parts|
      invariant forall p :: p in patterns ==> exists k :: Configured(nfkc, line, k) && Compiled(k, p)
      invariant forall j :: 0 <= j < i && Trimmed(parts[j]) != [] ==>
                  && Words(nfkc(Trimmed(parts[j]))) != []
                  && exists p :: p in patterns && Compiled(nfkc(Trimmed(parts[j])), p)
    {
      var keyword := Trimmed(parts[i]);
      if keyword == [] {
        continue;
      }
      assert Configured(nfkc, line, nfkc(keyword)) && Proper(nfkc(keyword));
      var p := Pattern(nfkc(keyword));
      if p.None? {
        return None;
      }
      assert Compiled(nfkc(keyword), p.value);
      patterns := patterns + {p.value};
    }
    var made := new Matcher(patterns);
    return Some(made);
  }

  /** Compiling the keywords and matching a text finds exactly the texts that hold one of them. */
  method Filter(nfkc: Nfkc, line: seq<Raw>, text: seq<Rune>) returns (found: Option<bool>)
    requires AllProper(nfkc) && Proper(text)
    ensures found.None? <==> exists k :: Configured(nfkc, line, k) && Words(k) == []
    ensures found.Some? ==> (found.value <==> exists k :: Configured(nfkc, line, k) && Matches(text, k))
  {
    hide Words, PatternFor, Contains, Padded, Split, Trimmed;
    var m := NewMatcher(nfkc, line);
    if m.None? {
      return None;
    }
    var hit := m.value.Match(text);
    assert AllWords(Words(text)) by { WordsProper(text); }
    forall k, p | Configured(nfkc, line, k) && Compiled(k, p)
      ensures Contains(Padded(Words(text)), p) <==> Matches(text, k)
    {
      assert Proper(k);
      PatternFinds(text, k);
    }
    return Some(hit);
  }

  lemma WordsProper(text: seq<Rune>)
    requires Proper(text)
    ensures AllWords(Words(text))
  {
    CutAllInv(text);
  }
}
