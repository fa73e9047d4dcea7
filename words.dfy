/** Python string primitives the layout engine relies on: `str.split()`
    with no argument, `str.strip()`, and joining words with single spaces
    (the lines the wrapper builds). */
module Words {

  /** Python's `str.isspace` for one character: the characters that
      `str.split()` and `str.strip()` treat as whitespace. */
  predicate IsSpace(c: char) {
    ('\t' <= c <= '\r') || ('\U{1C}' <= c <= '\U{1F}') || c == ' ' || c == '\U{85}' || c == '\U{A0}'
    || c == '\U{1680}' || ('\U{2000}' <= c <= '\U{200A}') || c == '\U{2028}' || c == '\U{2029}'
    || c == '\U{202F}' || c == '\U{205F}' || c == '\U{3000}'
  }

  /** A word as `str.split()` produces it: non-empty, without whitespace. */
  predicate IsWord(w: string) {
    |w| > 0 && forall k :: 0 <= k < |w| ==> !IsSpace(w[k])
  }

  predicate AllWords(ws: seq<string>) {
    forall k :: 0 <= k < |ws| ==> IsWord(ws[k])
  }

  /** Scans `s`, `cur` being the word read so far. */
  function SplitFrom(s: string, cur: string): seq<string>
    decreases |s|
  {
    if s == [] then (if cur == [] then [] else [cur])
    else if IsSpace(s[0]) then
      (if cur == [] then SplitFrom(s[1..], []) else [cur] + SplitFrom(s[1..], []))
    else SplitFrom(s[1..], cur + [s[0]])
  }

  /** Python's `s.split()`: the maximal runs of non-whitespace, in order. */
  function Split(s: string): seq<string> {
    SplitFrom(s, [])
  }

  /** Words joined by single spaces; the empty sequence joins to "". */
  function Join(ws: seq<string>): string
    decreases |ws|
  {
    if |ws| == 0 then ""
    else if |ws| == 1 then ws[0]
    else ws[0] + " " + Join(ws[1..])
  }

  function LStrip(s: string): string
    decreases |s|
  {
    if s != [] && IsSpace(s[0]) then LStrip(s[1..]) else s
  }

  function RStrip(s: string): string
    decreases |s|
  {
    if s != [] && IsSpace(s[|s| - 1]) then RStrip(s[..|s| - 1]) else s
  }

  /** Python's `s.strip()` with no argument. */
  function Strip(s: string): string {
    RStrip(LStrip(s))
  }

  /** Concatenation of a sequence of word lists. */
  function Flatten(gs: seq<seq<string>>): seq<string>
    decreases |gs|
  {
    if gs == [] then [] else Flatten(gs[..|gs| - 1]) + gs[|gs| - 1]
  }

  // ---------------------------------------------------------------------
  // Split produces words

  lemma {:induction false} SplitFromWords(s: string, cur: string)
    requires forall k :: 0 <= k < |cur| ==> !IsSpace(cur[k])
    ensures AllWords(SplitFrom(s, cur))
    decreases |s|
  {
    if s == [] {
    } else if IsSpace(s[0]) {
      SplitFromWords(s[1..], []);
    } else {
      SplitFromWords(s[1..], cur + [s[0]]);
    }
  }

  /** Every piece `str.split()` returns is a non-empty run without whitespace. */
  lemma SplitWords(s: string)
    ensures AllWords(Split(s))
  {
    SplitFromWords(s, []);
  }

  /** Splitting a string that holds only whitespace (or nothing) gives no words. */
  lemma {:induction false} SplitBlank(s: string)
    requires forall k :: 0 <= k < |s| ==> IsSpace(s[k])
    ensures Split(s) == []
    decreases |s|
  {
    if s != [] {
      SplitBlank(s[1..]);
    }
  }

  // ---------------------------------------------------------------------
  // Split(Join(ws)) == ws

  lemma {:induction false} SplitFromWordPrefix(w: string, rest: string, cur: string)
    requires forall k :: 0 <= k < |w| ==> !IsSpace(w[k])
    ensures SplitFrom(w + rest, cur) == SplitFrom(rest, cur + w)
    decreases |w|
  {
    if w == [] {
      assert w + rest == rest && cur + w == cur;
    } else {
      assert (w + rest)[0] == w[0] && !IsSpace(w[0]);
      assert (w + rest)[1..] == w[1..] + rest;
      assert SplitFrom(w + rest, cur) == SplitFrom(w[1..] + rest, cur + [w[0]]);
      SplitFromWordPrefix(w[1..], rest, cur + [w[0]]);
      assert cur + [w[0]] + w[1..] == cur + w;
    }
  }

  /** Joining words and splitting again gives back the same words:
      the words of a wrapped line are exactly the words put on it. */
  lemma {:induction false} SplitJoin(ws: seq<string>)
    requires AllWords(ws)
    ensures Split(Join(ws)) == ws
    decreases |ws|
  {
    if |ws| == 1 {
      SplitFromWordPrefix(ws[0], "", "");
      assert ws[0] + "" == ws[0];
    } else if |ws| > 1 {
      var rest := " " + Join(ws[1..]);
      assert Join(ws) == ws[0] + rest;
      SplitFromWordPrefix(ws[0], rest, "");
      assert "" + ws[0] == ws[0];
      assert rest[1..] == Join(ws[1..]);
      SplitJoin(ws[1..]);
      assert ws == [ws[0]] + ws[1..];
    }
  }

  // ---------------------------------------------------------------------
  // Join of words, appended to and stripped

  /** Appending one word to a line: a single space separates it from the
      previous words, and nothing precedes the first word. */
  lemma {:induction false} JoinSnoc(ws: seq<string>, w: string)
    ensures Join(ws + [w]) == if ws == [] then w else Join(ws) + " " + w
    decreases |ws|
  {
    if |ws| == 1 {
      assert ws + [w] == [ws[0], w];
    } else if |ws| > 1 {
      assert (ws + [w])[1..] == ws[1..] + [w];
      JoinSnoc(ws[1..], w);
    }
  }

  /** A join of words is empty exactly when there are no words. */
  lemma {:induction false} JoinEmpty(ws: seq<string>)
    requires AllWords(ws)
    ensures Join(ws) == "" <==> ws == []
  {
    if |ws| > 1 {
      assert |Join(ws)| >= |ws[0]|;
    }
  }

  /** A non-empty join of words starts and ends with a non-whitespace character. */
  lemma {:induction false} JoinEnds(ws: seq<string>)
    requires AllWords(ws) && ws != []
    ensures |Join(ws)| > 0
    ensures !IsSpace(Join(ws)[0]) && !IsSpace(Join(ws)[|Join(ws)| - 1])
    decreases |ws|
  {
    if |ws| > 1 {
      JoinEnds(ws[1..]);
      var t := Join(ws[1..]);
      assert Join(ws) == ws[0] + " " + t;
      assert Join(ws)[0] == ws[0][0];
      assert Join(ws)[|Join(ws)| - 1] == t[|t| - 1];
    }
  }

  lemma StripUntouched(s: string)
    requires s == [] || (!IsSpace(s[0]) && !IsSpace(s[|s| - 1]))
    ensures Strip(s) == s
  {
  }

  /** What the wrapper's `f"{current_line} {word}".strip()` evaluates to:
      the line extended by the word, with no leading space on an empty line. */
  lemma StripExtend(ws: seq<string>, w: string)
    requires AllWords(ws) && IsWord(w)
    ensures Strip(Join(ws) + " " + w) == Join(ws + [w])
  {
    JoinSnoc(ws, w);
    if ws == [] {
      assert Join(ws) + " " + w == " " + w;
      assert (" " + w)[1..] == w;
      assert LStrip(" " + w) == LStrip(w);
      StripUntouched(w);
    } else {
      JoinEnds(ws);
      var t := Join(ws) + " " + w;
      assert t[0] == Join(ws)[0];
      assert t[|t| - 1] == w[|w| - 1];
      StripUntouched(t);
    }
  }

  /** Flattening is concatenation: appending a group appends its words. */
  lemma FlattenSnoc(gs: seq<seq<string>>, g: seq<string>)
    ensures Flatten(gs + [g]) == Flatten(gs) + g
  {
    assert (gs + [g])[..|gs|] == gs;
  }

  /** Adding a word to the last group adds it at the end of the words. */
  lemma FlattenExtend(front: seq<seq<string>>, g: seq<string>, w: string)
    ensures Flatten(front + [g + [w]]) == (Flatten(front) + g) + [w]
  {
    FlattenSnoc(front, g + [w]);
    var f := Flatten(front);
    assert f + (g + [w]) == (f + g) + [w];
  }
}
