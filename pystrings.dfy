/**
 * The parts of Python's `str` that the instrument readers rely on:
 * `split(sep)` with a one-character separator, `split()` on runs of
 * whitespace, `replace` of one character by another, and the file-name
 * extension test `filename.split(".")[-1]`.
 */
module PyStrings {

  /** Python's `str.isspace` for one character (the characters `split()` breaks on). */
  predicate IsSpace(c: char)
  {
    || c == ' '
    || ('\t' <= c <= '\r')
    || ('\U{1c}' <= c <= '\U{1f}')
    || c == '\U{85}' || c == '\U{a0}' || c == '\U{1680}'
    || ('\U{2000}' <= c <= '\U{200a}')
    || c == '\U{2028}' || c == '\U{2029}' || c == '\U{202f}' || c == '\U{205f}' || c == '\U{3000}'
  }

  /** A field that `split()` can produce: non-empty and free of whitespace. */
  predicate IsWord(w: string)
  {
    |w| > 0 && forall i :: 0 <= i < |w| ==> !IsSpace(w[i])
  }

  /** Python's `sep.join(fields)` for a one-character separator. */
  function Join(fields: seq<string>, sep: char): string
  {
    if |fields| == 0 then ""
    else if |fields| == 1 then fields[0]
    else fields[0] + [sep] + Join(fields[1..], sep)
  }

  /**
   * Python's `s.split(sep)` for a one-character separator: every occurrence
   * of `sep` ends a field, so consecutive, leading and trailing separators
   * give empty fields, and there is always at least one field.
   */
  function Split(s: string, sep: char): (r: seq<string>)
    ensures |r| >= 1
    ensures forall k :: 0 <= k < |r| ==> sep !in r[k]
  {
    if s == [] then [""]
    else
      var rest := Split(s[1..], sep);
      if s[0] == sep then [""] + rest
      else [[s[0]] + rest[0]] + rest[1..]
  }

  /** Joining the fields of `split(sep)` with `sep` gives back the string. */
  lemma {:induction false} JoinSplit(s: string, sep: char)
    ensures Join(Split(s, sep), sep) == s
  {
    if s != [] {
      var rest := Split(s[1..], sep);
      JoinSplit(s[1..], sep);
      if s[0] == sep {
        assert Split(s, sep) == [""] + rest;
        assert ([""] + rest)[1..] == rest;
      } else {
        var r := Split(s, sep);
        assert r == [[s[0]] + rest[0]] + rest[1..];
        if |rest| == 1 {
          assert Join(r, sep) == [s[0]] + rest[0];
        } else {
          assert r[1..] == rest[1..];
          assert Join(r, sep) == [s[0]] + rest[0] + [sep] + Join(rest[1..], sep);
        }
      }
    }
  }

  /** Splitting a join of separator-free fields gives back the fields. */
  lemma {:induction false} SplitJoin(fields: seq<string>, sep: char)
    requires |fields| >= 1
    requires forall k :: 0 <= k < |fields| ==> sep !in fields[k]
    ensures Split(Join(fields, sep), sep) == fields
  {
    SplitFree(fields[0], sep);
    if |fields| > 1 {
      SplitJoin(fields[1..], sep);
      SplitAround(fields[0], Join(fields[1..], sep), sep);
      assert [fields[0]] + fields[1..] == fields;
    }
  }

  /** A string without the separator is a single field. */
  lemma {:induction false} SplitFree(s: string, sep: char)
    requires sep !in s
    ensures Split(s, sep) == [s]
  {
    if s != [] {
      SplitFree(s[1..], sep);
      assert [s[0]] + s[1..] == s;
    }
  }

  /** One step of the split: the first character either ends the first field or joins it. */
  lemma SplitStep(c: char, t: string, sep: char)
    ensures Split([c] + t, sep) ==
      if c == sep then [""] + Split(t, sep) else [[c] + Split(t, sep)[0]] + Split(t, sep)[1..]
  {
    assert ([c] + t)[1..] == t;
  }

  /** A separator between two strings splits them apart. */
  lemma {:induction false} SplitAround(a: string, b: string, sep: char)
    ensures Split(a + [sep] + b, sep) == Split(a, sep) + Split(b, sep)
  {
    if a == [] {
      assert a + [sep] + b == [sep] + b;
      SplitStep(sep, b, sep);
    } else {
      var c, t := a[0], a[1..];
      assert a == [c] + t;
      assert a + [sep] + b == [c] + (t + [sep] + b);
      SplitAround(t, b, sep);
      SplitStep(c, t + [sep] + b, sep);
      SplitStep(c, t, sep);
      StepAppend(c, sep, Split(t, sep), Split(b, sep));
    }
  }

  lemma StepAppend(c: char, sep: char, ra: seq<string>, rb: seq<string>)
    requires |ra| >= 1
    ensures (if c == sep then [""] + (ra + rb) else [[c] + (ra + rb)[0]] + (ra + rb)[1..])
         == (if c == sep then [""] + ra else [[c] + ra[0]] + ra[1..]) + rb
  {
    if c != sep {
      assert (ra + rb)[1..] == ra[1..] + rb;
    }
  }

  /** `filename.split(".")[-1]`: the text after the last period, or the whole name if it has none. */
  function Extension(filename: string): string
  {
    var parts := Split(filename, '.');
    parts[|parts| - 1]
  }

  /** The extension of `base.ext` is `ext`, whatever periods `base` holds. */
  lemma ExtensionOf(base: string, ext: string)
    requires '.' !in ext
    ensures Extension(base + "." + ext) == ext
  {
    SplitAround(base, ext, '.');
    SplitFree(ext, '.');
    assert base + "." + ext == base + ['.'] + ext;
  }

  /**
   * Python's `s.split()`: the maximal runs of non-whitespace characters,
   * in order; runs of whitespace, leading and trailing whitespace give no
   * empty fields.
   */
  function SplitWhitespace(s: string): (r: seq<string>)
    ensures forall k :: 0 <= k < |r| ==> IsWord(r[k])
    ensures |s| > 0 && !IsSpace(s[0]) ==> |r| > 0
  {
    if s == [] then []
    else
      var rest := SplitWhitespace(s[1..]);
      if IsSpace(s[0]) then rest
      else if |s| > 1 && !IsSpace(s[1]) then [[s[0]] + rest[0]] + rest[1..]
      else [[s[0]]] + rest
  }

  /** A single word splits to itself. */
  lemma {:induction false} SplitWhitespaceWord(w: string)
    requires IsWord(w)
    ensures SplitWhitespace(w) == [w]
  {
    if |w| == 1 {
      assert w[1..] == [];
      assert [w[0]] == w;
    } else {
      SplitWhitespaceWord(w[1..]);
      assert [w[0]] + w[1..] == w;
    }
  }

  /** A word followed by a space and more text splits off as the first field. */
  lemma {:induction false} SplitWhitespaceWordThen(w: string, t: string)
    requires IsWord(w)
    ensures SplitWhitespace(w + " " + t) == [w] + SplitWhitespace(t)
  {
    var s := w + " " + t;
    if |w| == 1 {
      assert s[1..] == " " + t;
      assert (" " + t)[1..] == t;
      assert [w[0]] == w;
    } else {
      assert s[1..] == w[1..] + " " + t;
      SplitWhitespaceWordThen(w[1..], t);
      assert [w[0]] + w[1..] == w;
    }
  }

  /** Nothing but Python whitespace. */
  predicate AllSpace(ws: string)
  {
    forall i :: 0 <= i < |ws| ==> IsSpace(ws[i])
  }

  /** Leading whitespace, of any kind and length, gives no field. */
  lemma {:induction false} SplitWhitespaceSkip(ws: string, t: string)
    requires AllSpace(ws)
    ensures SplitWhitespace(ws + t) == SplitWhitespace(t)
  {
    if ws == [] {
      assert ws + t == t;
    } else {
      assert (ws + t)[1..] == ws[1..] + t;
      SplitWhitespaceSkip(ws[1..], t);
    }
  }

  /**
   * A word followed by any non-empty run of whitespace splits off as the
   * first field: the run collapses, whatever its characters.
   */
  lemma {:induction false} SplitWhitespaceWordGap(w: string, ws: string, t: string)
    requires IsWord(w) && |ws| > 0 && AllSpace(ws)
    ensures SplitWhitespace(w + ws + t) == [w] + SplitWhitespace(t)
  {
    var s := w + ws + t;
    if |w| == 1 {
      assert s[1..] == ws + t;
      assert s[1] == ws[0];
      assert [w[0]] == w;
      SplitWhitespaceSkip(ws, t);
    } else {
      assert s[1..] == w[1..] + ws + t;
      SplitWhitespaceWordGap(w[1..], ws, t);
      assert [w[0]] + w[1..] == w;
    }
  }

  /**
   * A data line of two numbers, with any whitespace before, between and
   * after them (the trailing newline included), splits into exactly those two.
   */
  lemma SplitWhitespacePair(lead: string, a: string, gap: string, b: string, trail: string)
    requires AllSpace(lead) && AllSpace(gap) && AllSpace(trail) && |gap| > 0
    requires IsWord(a) && IsWord(b)
    ensures SplitWhitespace(lead + a + gap + b + trail) == [a, b]
  {
    Regroup(lead, a, gap, b, trail);
    SplitWhitespaceSkip(lead, a + gap + (b + trail));
    SplitWhitespaceWordGap(a, gap, b + trail);
    if trail == [] {
      assert b + trail == b;
      SplitWhitespaceWord(b);
    } else {
      assert b + trail + [] == b + trail;
      SplitWhitespaceWordGap(b, trail, []);
    }
  }

  lemma Regroup(lead: string, a: string, gap: string, b: string, trail: string)
    ensures lead + a + gap + b + trail == lead + (a + gap + (b + trail))
  {
  }

  /** `split()` of words joined by single spaces gives back the words. */
  lemma {:induction false} SplitWhitespaceJoin(words: seq<string>)
    requires forall k :: 0 <= k < |words| ==> IsWord(words[k])
    ensures SplitWhitespace(Join(words, ' ')) == words
  {
    if |words| == 1 {
      SplitWhitespaceWord(words[0]);
    } else if |words| > 1 {
      SplitWhitespaceJoin(words[1..]);
      SplitWhitespaceWordThen(words[0], Join(words[1..], ' '));
      assert words[0] + [' '] + Join(words[1..], ' ') == words[0] + " " + Join(words[1..], ' ');
      assert [words[0]] + words[1..] == words;
    }
  }

  /** Python's `s.replace(from, to)` where both are single characters. */
  function ReplaceChar(s: string, from: char, to: char): (r: string)
    ensures |r| == |s|
    ensures forall i :: 0 <= i < |s| ==> r[i] == (if s[i] == from then to else s[i])
  {
    seq(|s|, i requires 0 <= i < |s| => if s[i] == from then to else s[i])
  }

  /** After `replace(from, to)` no `from` is left, and every `from` became a `to`. */
  lemma ReplaceCharRemoves(s: string, from: char, to: char)
    requires from != to
    ensures from !in ReplaceChar(s, from, to)
    ensures from in s ==> to in ReplaceChar(s, from, to)
  {
    var r := ReplaceChar(s, from, to);
    if from in s {
      var i :| 0 <= i < |s| && s[i] == from;
      assert r[i] == to;
    }
  }
}
