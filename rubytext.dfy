/** The pieces of Ruby's String behaviour that the bot relies on: substring
    search (what its regular expressions reduce to), `split("\n")`,
    `split(" ")` and `upcase`. Strings are sequences of characters. */
module RubyText {

  datatype Option<T> = None | Some(value: T)

  /** Ruby's ASCII whitespace: the class `\s` of its regular expressions and
      the separators of the awk-style `split(" ")`. */
  predicate IsSpace(c: char)
  {
    c == ' ' || c == '\t' || c == '\n' || c == '\U{B}' || c == '\U{C}' || c == '\r'
  }

  /** Concatenation regrouped; stated once so that callers with large
      terms in scope need not rediscover it. */
  lemma ConcatAssoc<T>(a: seq<T>, b: seq<T>, c: seq<T>)
    ensures a + (b + c) == a + b + c
  {
  }

  /** `pat` occurs in `s` starting at index `k`. */
  predicate OccursAt(s: string, pat: string, k: int)
  {
    0 <= k && k + |pat| <= |s| && s[k..k + |pat|] == pat
  }

  predicate StartsWith(s: string, prefix: string)
  {
    |prefix| <= |s| && s[..|prefix|] == prefix
  }

  /** A text that differs from `prefix` at some index of both does not
      start with it. */
  lemma DiffersAt(s: string, prefix: string, i: nat)
    requires i < |prefix| && i < |s| && s[i] != prefix[i]
    ensures !StartsWith(s, prefix)
  {
  }

  /** The search for `pat` in `s` from index `i` on. */
  function IndexFrom(s: string, pat: string, i: nat): (r: Option<nat>)
    decreases |s| - i
    ensures r.Some? ==> i <= r.value && r.value + |pat| <= |s|
  {
    if i + |pat| > |s| then None
    else if s[i..i + |pat|] == pat then Some(i)
    else IndexFrom(s, pat, i + 1)
  }

  /** The search finds the first occurrence of `pat` at or after `i`, and
      finds nothing exactly when there is none. */
  lemma {:induction false} IndexFromSpec(s: string, pat: string, i: nat)
    ensures IndexFrom(s, pat, i).Some? ==> i <= IndexFrom(s, pat, i).value && OccursAt(s, pat, IndexFrom(s, pat, i).value)
    ensures IndexFrom(s, pat, i).Some? ==> forall k :: i <= k < IndexFrom(s, pat, i).value ==> !OccursAt(s, pat, k)
    ensures IndexFrom(s, pat, i).None? ==> forall k :: i <= k ==> !OccursAt(s, pat, k)
    decreases |s| - i
  {
    if i + |pat| <= |s| && s[i..i + |pat|] != pat {
      IndexFromSpec(s, pat, i + 1);
    }
  }

  /** The leftmost occurrence of a literal text. The bot's regular
      expressions come down to such searches for their literal pieces
      plus prefix tests. */
  function IndexOf(s: string, pat: string): (r: Option<nat>)
    ensures r.Some? ==> r.value + |pat| <= |s|
  {
    IndexFrom(s, pat, 0)
  }

  /** IndexOf finds an occurrence exactly when there is one, and then the
      first. */
  lemma IndexOfSpec(s: string, pat: string)
    ensures IndexOf(s, pat).Some? <==> exists k :: OccursAt(s, pat, k)
    ensures IndexOf(s, pat).Some? ==>
      OccursAt(s, pat, IndexOf(s, pat).value) && forall k :: 0 <= k < IndexOf(s, pat).value ==> !OccursAt(s, pat, k)
  {
    IndexFromSpec(s, pat, 0);
  }

  // ---------------------------------------------------------------------
  // split("\n")
  // ---------------------------------------------------------------------

  /** The fields of `s` between its newlines, empty ones included
      (for a non-empty text, what Ruby's `split("\n", -1)` returns). */
  function Fields(s: string): (fs: seq<string>)
    ensures |fs| >= 1
    decreases |s|
  {
    if s == [] then [""]
    else
      var fs := Fields(s[..|s| - 1]);
      var c := s[|s| - 1];
      if c == '\n' then fs + [""] else fs[..|fs| - 1] + [fs[|fs| - 1] + [c]]
  }

  function DropTrailingEmpty(fs: seq<string>): seq<string>
  {
    if fs == [] || fs[|fs| - 1] != "" then fs else DropTrailingEmpty(fs[..|fs| - 1])
  }

  /** Ruby's `s.split("\n")`: the fields between newlines, with the trailing
      empty fields removed (so `""` and `"\n"` give no field at all). */
  function SplitLines(s: string): seq<string>
  {
    DropTrailingEmpty(Fields(s))
  }

  /** The segments joined with a newline between each two (`join("\n")`). */
  function Unlines(segs: seq<string>): string
  {
    if segs == [] then ""
    else if |segs| == 1 then segs[0]
    else Unlines(segs[..|segs| - 1]) + "\n" + segs[|segs| - 1]
  }

  function Newlines(n: nat): string
  {
    seq(n, _ => '\n')
  }

  /** The number of newlines `s` ends with. */
  function TrailingNewlines(s: string): (n: nat)
    ensures n <= |s|
  {
    if s != [] && s[|s| - 1] == '\n' then 1 + TrailingNewlines(s[..|s| - 1]) else 0
  }

  predicate NoNewline(s: string)
  {
    '\n' !in s
  }

  /** How one more character changes the fields. */
  lemma FieldsSnoc(t: string, c: char)
    ensures Fields(t + [c]) == if c == '\n' then Fields(t) + [""]
                               else Fields(t)[..|Fields(t)| - 1] + [Fields(t)[|Fields(t)| - 1] + [c]]
  {
  }

  lemma UnlinesSnoc(fs: seq<string>, x: string)
    requires |fs| >= 1
    ensures Unlines(fs + [x]) == Unlines(fs) + "\n" + x
  {
  }

  lemma UnlinesExtendLast(front: seq<string>, last: string, c: char)
    ensures Unlines(front + [last + [c]]) == Unlines(front + [last]) + [c]
  {
  }

  /** Joining the fields by newlines gives back `s`. */
  lemma {:induction false} FieldsJoin(s: string)
    ensures Unlines(Fields(s)) == s
    decreases |s|
  {
    if s != [] {
      var t, c := s[..|s| - 1], s[|s| - 1];
      assert s == t + [c];
      FieldsJoin(t);
      FieldsSnoc(t, c);
      if c == '\n' {
        UnlinesSnoc(Fields(t), "");
      } else {
        var fs := Fields(t);
        assert fs == fs[..|fs| - 1] + [fs[|fs| - 1]];
        UnlinesExtendLast(fs[..|fs| - 1], fs[|fs| - 1], c);
      }
    }
  }

  /** No field contains a newline. */
  lemma {:induction false} FieldsNoNewline(s: string)
    ensures forall i :: 0 <= i < |Fields(s)| ==> NoNewline(Fields(s)[i])
    decreases |s|
  {
    if s != [] {
      var t, c := s[..|s| - 1], s[|s| - 1];
      assert s == t + [c];
      FieldsNoNewline(t);
      FieldsSnoc(t, c);
      var fs := Fields(t);
      if c != '\n' {
        forall i | 0 <= i < |Fields(s)| ensures NoNewline(Fields(s)[i]) {
          if i == |fs| - 1 {
            assert NoNewline(fs[i]);
            assert Fields(s)[i] == fs[i] + [c];
          } else {
            assert Fields(s)[i] == fs[i];
          }
        }
      }
    }
  }

  /** Appending newline-free text only lengthens the last field. */
  lemma {:induction false} FieldsAppendPlain(t: string, x: string)
    requires NoNewline(x)
    ensures Fields(t + x) == Fields(t)[..|Fields(t)| - 1] + [Fields(t)[|Fields(t)| - 1] + x]
    decreases |x|
  {
    var fs := Fields(t);
    var front, last := fs[..|fs| - 1], fs[|fs| - 1];
    if x == [] {
      assert t + x == t;
      assert last + x == last;
      assert front + [last] == fs;
    } else {
      var y, c := x[..|x| - 1], x[|x| - 1];
      assert x == y + [c];
      assert c != '\n' by { assert c in x; }
      assert NoNewline(y) by { assert forall ch :: ch in y ==> ch in x; }
      FieldsAppendPlain(t, y);
      assert t + x == (t + y) + [c];
      FieldsSnoc(t + y, c);
      var gs := Fields(t + y);
      assert gs == front + [last + y];
      assert gs[..|gs| - 1] == front;
      ConcatAssoc(last, y, [c]);
    }
  }

  /** Joining newline-free segments and splitting at every newline gives the
      segments back. */
  lemma {:induction false} FieldsOfJoin(segs: seq<string>)
    requires |segs| >= 1
    requires forall i :: 0 <= i < |segs| ==> NoNewline(segs[i])
    ensures Fields(Unlines(segs)) == segs
    decreases |segs|
  {
    var x := segs[|segs| - 1];
    assert NoNewline(x);
    if |segs| == 1 {
      FieldsAppendPlain("", x);
      assert "" + x == x;
      assert Fields("") == [""];
      assert [""][..0] + ["" + x] == segs;
    } else {
      var q := segs[..|segs| - 1];
      assert q + [x] == segs;
      assert forall i :: 0 <= i < |q| ==> q[i] == segs[i];
      FieldsOfJoin(q);
      UnlinesSnoc(q, x);
      var t := Unlines(q) + "\n";
      assert Unlines(segs) == t + x;
      assert t == Unlines(q) + ['\n'];
      FieldsSnoc(Unlines(q), '\n');
      assert Fields(t) == q + [""];
      FieldsAppendPlain(t, x);
      assert (q + [""])[..|q|] == q;
      assert "" + x == x;
    }
  }

  lemma DropTrailingEmptyKeeps(fs: seq<string>)
    requires fs == [] || fs[|fs| - 1] != ""
    ensures DropTrailingEmpty(fs) == fs
  {
  }

  /** What `split("\n")` promises: every segment is newline-free, the last one
      is not empty, and the segments joined by newlines, followed by the
      newlines `s` ends with, are exactly `s`. */
  lemma {:induction false} SplitLinesSpec(s: string)
    ensures forall i :: 0 <= i < |SplitLines(s)| ==> NoNewline(SplitLines(s)[i])
    ensures SplitLines(s) == [] || SplitLines(s)[|SplitLines(s)| - 1] != ""
    ensures s == Unlines(SplitLines(s)) + Newlines(TrailingNewlines(s))
    decreases |s|
  {
    if s == [] {
      assert Fields(s) == [""];
      assert DropTrailingEmpty([""]) == DropTrailingEmpty([]);
      assert SplitLines(s) == [];
    } else {
      var t := s[..|s| - 1];
      var c := s[|s| - 1];
      assert s == t + [c];
      if c == '\n' {
        SplitLinesSpec(t);
        var fs := Fields(t);
        assert Fields(s) == fs + [""];
        assert (fs + [""])[..|fs|] == fs;
        assert SplitLines(s) == SplitLines(t);
        assert TrailingNewlines(s) == 1 + TrailingNewlines(t);
        assert Newlines(TrailingNewlines(t)) + "\n" == Newlines(TrailingNewlines(s));
      } else {
        FieldsJoin(s);
        FieldsNoNewline(s);
        FieldsSnoc(t, c);
        var fs := Fields(t);
        assert Fields(s)[|Fields(s)| - 1] != "";
        DropTrailingEmptyKeeps(Fields(s));
        assert TrailingNewlines(s) == 0;
        assert Newlines(0) == "";
      }
    }
  }

  /** The converse round trip: newline-free segments, the last non-empty,
      joined by newlines, split back into the same segments. */
  lemma SplitLinesOfJoin(segs: seq<string>)
    requires forall i :: 0 <= i < |segs| ==> NoNewline(segs[i])
    requires segs == [] || segs[|segs| - 1] != ""
    ensures SplitLines(Unlines(segs)) == segs
  {
    if segs == [] {
      assert Fields("") == [""];
      assert DropTrailingEmpty([""]) == DropTrailingEmpty([]);
    } else {
      FieldsOfJoin(segs);
      DropTrailingEmptyKeeps(segs);
    }
  }

  /** A trailing newline terminator never changes what `split("\n")` returns. */
  lemma SplitLinesIgnoresTerminator(s: string)
    ensures SplitLines(s + "\n") == SplitLines(s)
  {
  }

  /** A non-empty newline-free line is a single segment. */
  lemma SplitLinesSingle(s: string)
    requires NoNewline(s) && s != ""
    ensures SplitLines(s) == [s]
  {
    SplitLinesOfJoin([s]);
  }

  // ---------------------------------------------------------------------
  // split(" ")
  // ---------------------------------------------------------------------

  /** A field of an awk-style split: non-empty, without whitespace. */
  predicate IsWord(w: string)
  {
    |w| > 0 && forall i :: 0 <= i < |w| ==> !IsSpace(w[i])
  }

  /** The end of the run of non-whitespace characters that starts at `i`. */
  function WordEnd(s: string, i: nat): (r: nat)
    requires i <= |s|
    decreases |s| - i
    ensures i <= r <= |s|
    ensures forall k :: i <= k < r ==> !IsSpace(s[k])
    ensures r == |s| || IsSpace(s[r])
  {
    if i == |s| || IsSpace(s[i]) then i else WordEnd(s, i + 1)
  }

  /** Ruby's `s.split(" ")`: the maximal runs of non-whitespace characters,
      in order; leading, trailing and repeated whitespace yields no field. */
  function Words(s: string): seq<string>
    decreases |s|
  {
    if s == [] then []
    else if IsSpace(s[0]) then Words(s[1..])
    else
      var k := WordEnd(s, 0);
      [s[..k]] + Words(s[k..])
  }

  /** The words joined by single spaces (`join(" ")`). */
  function Unwords(ws: seq<string>): string
  {
    if ws == [] then ""
    else if |ws| == 1 then ws[0]
    else ws[0] + " " + Unwords(ws[1..])
  }

  lemma {:induction false} WordEndOfWord(w: string, rest: string, i: nat)
    requires IsWord(w) && i <= |w|
    requires rest == [] || IsSpace(rest[0])
    ensures WordEnd(w + rest, i) == |w|
    decreases |w| - i
  {
    var s := w + rest;
    if i < |w| {
      assert s[i] == w[i];
      WordEndOfWord(w, rest, i + 1);
    } else if rest != [] {
      assert s[i] == rest[0];
    }
  }

  /** Words separated by single spaces split back into the same words. */
  lemma {:induction false} WordsOfUnwords(ws: seq<string>)
    requires forall i :: 0 <= i < |ws| ==> IsWord(ws[i])
    ensures Words(Unwords(ws)) == ws
    decreases |ws|
  {
    if ws == [] {
    } else if |ws| == 1 {
      var w := ws[0];
      WordEndOfWord(w, "", 0);
      assert w + "" == w;
      assert w[..|w|] == w && w[|w|..] == [];
    } else {
      var w := ws[0];
      var rest := " " + Unwords(ws[1..]);
      var s := w + rest;
      assert Unwords(ws) == s;
      WordEndOfWord(w, rest, 0);
      assert s[..|w|] == w && s[|w|..] == rest;
      assert rest[1..] == Unwords(ws[1..]);
      assert Words(rest) == Words(Unwords(ws[1..]));
      WordsOfUnwords(ws[1..]);
      assert [w] + ws[1..] == ws;
    }
  }

  /** Every field is a word. */
  lemma {:induction false} WordsAreWords(s: string)
    ensures forall i :: 0 <= i < |Words(s)| ==> IsWord(Words(s)[i])
    decreases |s|
  {
    if s != [] {
      if IsSpace(s[0]) {
        WordsAreWords(s[1..]);
      } else {
        var k := WordEnd(s, 0);
        WordsAreWords(s[k..]);
        assert Words(s) == [s[..k]] + Words(s[k..]);
      }
    }
  }

  /** Whitespace in front of the text never adds a field. */
  lemma WordsSkipsLeadingSpace(c: char, s: string)
    requires IsSpace(c)
    ensures Words([c] + s) == Words(s)
  {
  }

  /** Nothing but whitespace. */
  predicate AllSpace(t: string)
  {
    forall i :: 0 <= i < |t| ==> IsSpace(t[i])
  }

  /** A text of whitespace only has no field. */
  lemma {:induction false} WordsOfSpace(t: string)
    requires AllSpace(t)
    ensures Words(t) == []
    decreases |t|
  {
    if t != [] {
      assert forall i :: 0 <= i < |t[1..]| ==> t[1..][i] == t[i + 1];
      WordsOfSpace(t[1..]);
    }
  }

  /** A whitespace character ends the word running up to it. */
  lemma {:induction false} WordEndBeforeSpace(s: string, t: string, i: nat)
    requires i <= |s| && t != [] && IsSpace(t[0])
    ensures WordEnd(s + t, i) == WordEnd(s, i)
    decreases |s| - i
  {
    var st := s + t;
    if i < |s| {
      assert st[i] == s[i];
      if !IsSpace(s[i]) {
        WordEndBeforeSpace(s, t, i + 1);
      }
    } else {
      assert st[i] == t[0];
    }
  }

  /** Cutting at any whitespace character: the fields of the text before
      it, then those of the text after it. So a run of whitespace of any
      length between two words adds no field. */
  lemma {:induction false} WordsSplitAtSpace(a: string, c: char, b: string)
    requires IsSpace(c)
    ensures Words(a + [c] + b) == Words(a) + Words(b)
    decreases |a|
  {
    var s := a + [c] + b;
    if a == [] {
      assert s == [c] + b;
      WordsSkipsLeadingSpace(c, b);
    } else if IsSpace(a[0]) {
      assert s[0] == a[0];
      assert s[1..] == a[1..] + [c] + b;
      WordsSplitAtSpace(a[1..], c, b);
    } else {
      var k := WordEnd(a, 0);
      assert k > 0;
      assert s == a + ([c] + b);
      WordEndBeforeSpace(a, [c] + b, 0);
      assert s[0] == a[0];
      assert s[..k] == a[..k];
      assert s[k..] == a[k..] + [c] + b;
      WordsSplitAtSpace(a[k..], c, b);
      ConcatAssoc([a[..k]], Words(a[k..]), Words(b));
    }
  }

  /** Whitespace after the text (such as the "\r" of a CRLF line end)
      never adds a field. */
  lemma WordsSkipsTrailingSpace(s: string, t: string)
    requires AllSpace(t)
    ensures Words(s + t) == Words(s)
  {
    if t != [] {
      var rest := t[1..];
      assert s + t == s + [t[0]] + rest;
      assert IsSpace(t[0]);
      WordsSplitAtSpace(s, t[0], rest);
      assert forall i :: 0 <= i < |rest| ==> rest[i] == t[i + 1];
      WordsOfSpace(rest);
      assert Words(s) + [] == Words(s);
    } else {
      assert s + t == s;
    }
  }

  // ---------------------------------------------------------------------
  // upcase
  // ---------------------------------------------------------------------

  function UpChar(c: char): char
  {
    if 'a' <= c <= 'z' then (c as int - 32) as char else c
  }

  /** Ruby's `upcase` on ASCII letters; every other character is kept. */
  function Upcase(s: string): string
  {
    seq(|s|, i requires 0 <= i < |s| => UpChar(s[i]))
  }

  function LowChar(c: char): char
  {
    if 'A' <= c <= 'Z' then (c as int + 32) as char else c
  }

  /** `x` spells `w` up to the case of each letter: every character is
      that of `w` or its lower-case form. */
  predicate CaseEq(x: string, w: string)
  {
    |x| == |w| && forall i :: 0 <= i < |x| ==> x[i] == w[i] || x[i] == LowChar(w[i])
  }

  predicate IsUpper(w: string)
  {
    forall i :: 0 <= i < |w| ==> 'A' <= w[i] <= 'Z'
  }

  /** For an upper-case word, `x.upcase == w` exactly when `x` is `w` in
      any mixture of cases. */
  lemma UpcaseIs(x: string, w: string)
    requires IsUpper(w)
    ensures Upcase(x) == w <==> CaseEq(x, w)
  {
    if Upcase(x) == w {
      forall i | 0 <= i < |x|
        ensures x[i] == w[i] || x[i] == LowChar(w[i])
      {
        assert UpChar(x[i]) == w[i];
      }
    }
    if CaseEq(x, w) {
      forall i | 0 <= i < |x|
        ensures Upcase(x)[i] == w[i]
      {
        assert 'A' <= w[i] <= 'Z';
      }
    }
  }
}
