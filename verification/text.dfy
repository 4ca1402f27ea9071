/**
  The string primitives the chat client relies on, with the meaning JavaScript
  gives them: `String.prototype.trim`, `startsWith`, and `split('\n')`.
  Strings are sequences of Unicode scalar values; every character `trim`
  removes lies in the Basic Multilingual Plane, so the UTF-16 view of the
  source does not change what is trimmed.
 */
module Text {

  /** The characters ECMAScript classes as WhiteSpace or LineTerminator,
      which `trim` strips from both ends. */
  predicate IsWhitespace(c: char): (b: bool)
    ensures b ==> c as int < 0x1_0000
    ensures c == ' ' || c == '\t' || c == '\n' || c == '\r' ==> b
  {
    || c == '\t' || c == '\n' || c == '\U{000B}' || c == '\U{000C}' || c == '\r'
    || c == ' ' || c == '\U{00A0}' || c == '\U{1680}'
    || ('\U{2000}' <= c <= '\U{200A}')
    || c == '\U{2028}' || c == '\U{2029}' || c == '\U{202F}' || c == '\U{205F}'
    || c == '\U{3000}' || c == '\U{FEFF}'
  }

  predicate AllWhitespace(s: string) {
    forall i :: 0 <= i < |s| ==> IsWhitespace(s[i])
  }

  /** A string that `trim` leaves alone: empty, or starting and ending with
      a non-whitespace character. */
  predicate IsTrimmed(s: string) {
    s == [] || (!IsWhitespace(s[0]) && !IsWhitespace(s[|s| - 1]))
  }

  lemma AllWhitespaceCons(s: string)
    requires |s| > 0
    ensures AllWhitespace(s) <==> IsWhitespace(s[0]) && AllWhitespace(s[1..])
  {
    assert forall i :: 1 <= i < |s| ==> s[i] == s[1..][i - 1];
  }

  lemma AllWhitespaceSnoc(s: string)
    requires |s| > 0
    ensures AllWhitespace(s) <==> AllWhitespace(s[..|s| - 1]) && IsWhitespace(s[|s| - 1])
  {
    assert forall i :: 0 <= i < |s| - 1 ==> s[i] == s[..|s| - 1][i];
  }

  /** `s.trimStart()`: a suffix of `s` that does not start with whitespace. */
  function TrimStart(s: string): (r: string)
    ensures |r| <= |s| && r == s[|s| - |r|..]
    ensures r == [] || !IsWhitespace(r[0])
    decreases |s|
  {
    if |s| > 0 && IsWhitespace(s[0]) then TrimStart(s[1..]) else s
  }

  /** `s.trimEnd()`: a prefix of `s` that does not end with whitespace. */
  function TrimEnd(s: string): (r: string)
    ensures |r| <= |s| && r == s[..|r|]
    ensures r == [] || !IsWhitespace(r[|r| - 1])
    decreases |s|
  {
    if |s| > 0 && IsWhitespace(s[|s| - 1]) then TrimEnd(s[..|s| - 1]) else s
  }

  /** What `trimStart` drops is whitespace, so it drops the whole whitespace
      prefix and nothing more. */
  lemma {:induction false} TrimStartDropsWhitespace(s: string)
    ensures AllWhitespace(s[..|s| - |TrimStart(s)|])
    decreases |s|
  {
    if |s| > 0 && IsWhitespace(s[0]) {
      var k := |s| - |TrimStart(s)|;
      TrimStartDropsWhitespace(s[1..]);
      assert s[1..][..k - 1] == s[1..k];
      assert s[..k] == [s[0]] + s[1..k];
      AllWhitespaceCons(s[..k]);
    } else {
      assert s[..0] == [];
    }
  }

  /** What `trimEnd` drops is whitespace. */
  lemma {:induction false} TrimEndDropsWhitespace(s: string)
    ensures AllWhitespace(s[|TrimEnd(s)|..])
    decreases |s|
  {
    if |s| > 0 && IsWhitespace(s[|s| - 1]) {
      var k := |TrimEnd(s)|;
      var init := s[..|s| - 1];
      TrimEndDropsWhitespace(init);
      assert init[k..] == s[k..|s| - 1];
      assert s[k..] == s[k..|s| - 1] + [s[|s| - 1]];
      AllWhitespaceSnoc(s[k..]);
      assert s[k..][..|s[k..]| - 1] == s[k..|s| - 1];
    } else {
      assert s[|s|..] == [];
    }
  }

  /** `s.trim()`. */
  function Trim(s: string): (r: string)
    ensures |r| <= |s|
    ensures IsTrimmed(r)
  {
    var t := TrimStart(s);
    TrimEndBlank(t);
    TrimEnd(t)
  }

  /** `trim()` returns the empty string exactly on all-whitespace input,
      the test `!text.trim()` makes. */
  lemma TrimBlank(s: string)
    ensures Trim(s) == [] <==> AllWhitespace(s)
  {
    TrimStartBlank(s);
    TrimEndBlank(TrimStart(s));
  }

  lemma {:induction false} TrimStartBlank(s: string)
    ensures TrimStart(s) == [] <==> AllWhitespace(s)
    decreases |s|
  {
    if |s| > 0 {
      AllWhitespaceCons(s);
      if IsWhitespace(s[0]) {
        TrimStartBlank(s[1..]);
      }
    }
  }

  /** Trimming the end of a string that starts with a non-whitespace character
      keeps that character. */
  lemma TrimEndBlank(t: string)
    requires t == [] || !IsWhitespace(t[0])
    ensures TrimEnd(t) == [] <==> t == []
    ensures TrimEnd(t) == [] || TrimEnd(t)[0] == t[0]
  {
  }

  lemma {:induction false} TrimStartPadded(w: string, s: string)
    requires AllWhitespace(w)
    ensures TrimStart(w + s) == TrimStart(s)
    decreases |w|
  {
    if |w| > 0 {
      assert (w + s)[1..] == w[1..] + s;
      TrimStartPadded(w[1..], s);
    } else {
      assert w + s == s;
    }
  }

  lemma {:induction false} TrimEndPadded(s: string, w: string)
    requires AllWhitespace(w)
    ensures TrimEnd(s + w) == TrimEnd(s)
    decreases |w|
  {
    if |w| > 0 {
      assert (s + w)[..|s + w| - 1] == s + w[..|w| - 1];
      TrimEndPadded(s, w[..|w| - 1]);
    } else {
      assert s + w == s;
    }
  }

  /** Trimming the start of `s + w` either keeps all of `w` (when `s` holds a
      non-whitespace character) or trims inside `w` alone. */
  lemma {:induction false} TrimStartAppend(s: string, w: string)
    ensures TrimStart(s + w) == if AllWhitespace(s) then TrimStart(w) else TrimStart(s) + w
    decreases |s|
  {
    if |s| == 0 {
      assert s + w == w;
    } else {
      AllWhitespaceCons(s);
      assert (s + w)[0] == s[0];
      if IsWhitespace(s[0]) {
        assert (s + w)[1..] == s[1..] + w;
        TrimStartAppend(s[1..], w);
      }
    }
  }

  /** Whitespace around a string never changes what `trim` returns. */
  lemma TrimPadded(w1: string, s: string, w2: string)
    requires AllWhitespace(w1) && AllWhitespace(w2)
    ensures Trim(w1 + s + w2) == Trim(s)
  {
    assert w1 + s + w2 == w1 + (s + w2);
    TrimStartPadded(w1, s + w2);
    TrimStartAppend(s, w2);
    if AllWhitespace(s) {
      assert TrimStart(w2) == [];
    } else {
      TrimEndPadded(TrimStart(s), w2);
    }
  }

  /** A trimmed string is a fixed point of `trim`; together with `TrimPadded`
      this makes `trim` the inverse of padding with whitespace. */
  lemma TrimOfTrimmed(s: string)
    requires IsTrimmed(s)
    ensures Trim(s) == s
  {
    assert TrimStart(s) == s;
  }

  lemma TrimIdempotent(s: string)
    ensures Trim(Trim(s)) == Trim(s)
  {
    TrimOfTrimmed(Trim(s));
  }

  /** `s.startsWith(p)`. */
  predicate StartsWith(s: string, p: string): (b: bool)
    ensures b ==> |p| <= |s| && s == p + s[|p|..]
  {
    |p| <= |s| && s[..|p|] == p
  }

  /** Together with `StartsWith`'s contract: `s` starts with `p` exactly when
      it is `p` followed by something. */
  lemma StartsWithAppend(p: string, rest: string)
    ensures StartsWith(p + rest, p)
  {
    assert (p + rest)[..|p|] == p;
  }

  predicate NoNewline(s: string) {
    '\n' !in s
  }

  predicate AllNoNewline(lines: seq<string>) {
    forall i :: 0 <= i < |lines| ==> NoNewline(lines[i])
  }

  /** `s.split('\n')`: the pieces between newlines, always at least one. */
  function Split(s: string): (parts: seq<string>)
    ensures |parts| >= 1
    decreases |s|
  {
    if |s| == 0 then [""]
    else
      var rest := Split(s[1..]);
      if s[0] == '\n' then [""] + rest
      else [[s[0]] + rest[0]] + rest[1..]
  }

  /** Each line followed by its newline: the text a sequence of complete
      lines was cut from. */
  function Flatten(lines: seq<string>): string
    decreases |lines|
  {
    if |lines| == 0 then "" else Flatten(lines[..|lines| - 1]) + lines[|lines| - 1] + "\n"
  }

  /** All pieces of `s.split('\n')` but the last: the lines a newline has closed. */
  function CompleteLines(s: string): seq<string> {
    var parts := Split(s);
    parts[..|parts| - 1]
  }

  /** The last piece of `s.split('\n')`: text after the final newline. */
  function Pending(s: string): string {
    var parts := Split(s);
    parts[|parts| - 1]
  }

  lemma {:induction false} FlattenAppend(a: seq<string>, b: seq<string>)
    ensures Flatten(a + b) == Flatten(a) + Flatten(b)
    decreases |b|
  {
    if |b| == 0 {
      assert a + b == a;
    } else {
      assert (a + b)[..|a + b| - 1] == a + b[..|b| - 1];
      FlattenAppend(a, b[..|b| - 1]);
    }
  }

  lemma FlattenCons(line: string, rest: seq<string>)
    ensures Flatten([line] + rest) == line + "\n" + Flatten(rest)
  {
    FlattenAppend([line], rest);
    assert Flatten([line]) == Flatten([]) + line + "\n";
  }

  /** The text a sequence of pieces came from: every piece but the last
      closed by a newline, then the last piece as it is. */
  function Framed(parts: seq<string>): string
    requires |parts| >= 1
  {
    Flatten(parts[..|parts| - 1]) + parts[|parts| - 1]
  }

  lemma FramedCons(first: string, more: seq<string>)
    requires |more| >= 1
    ensures Framed([first] + more) == first + "\n" + Framed(more)
  {
    var all := [first] + more;
    assert all[..|all| - 1] == [first] + more[..|more| - 1];
    FlattenCons(first, more[..|more| - 1]);
  }

  lemma {:induction false} SplitNewlineFree(s: string)
    ensures AllNoNewline(Split(s))
    decreases |s|
  {
    if |s| > 0 {
      SplitNewlineFree(s[1..]);
      var rest := Split(s[1..]);
      if s[0] != '\n' {
        assert NoNewline(rest[0]);
        assert NoNewline([s[0]] + rest[0]);
        var parts := Split(s);
        forall i | 0 <= i < |parts| ensures NoNewline(parts[i]) {
          if i > 0 {
            assert parts[i] == rest[i];
          }
        }
      }
    }
  }

  lemma {:induction false} SplitFramed(s: string)
    ensures Framed(Split(s)) == s
    decreases |s|
  {
    if |s| > 0 {
      var rest := Split(s[1..]);
      SplitFramed(s[1..]);
      if s[0] == '\n' {
        FramedCons("", rest);
        assert s == "\n" + s[1..];
      } else if |rest| == 1 {
        assert Split(s) == [[s[0]] + rest[0]];
        assert s == [s[0]] + s[1..];
      } else {
        assert rest == [rest[0]] + rest[1..];
        FramedCons(rest[0], rest[1..]);
        FramedCons([s[0]] + rest[0], rest[1..]);
        assert s == [s[0]] + s[1..];
      }
    }
  }

  /** Splitting cuts `s` into newline-free pieces whose newline-terminated
      lines followed by the pending piece spell `s` again. */
  lemma SplitSpells(s: string)
    ensures AllNoNewline(Split(s))
    ensures Flatten(CompleteLines(s)) + Pending(s) == s
  {
    SplitNewlineFree(s);
    SplitFramed(s);
  }

  /** Splitting a newline-free prefix glues it onto the first piece. */
  lemma {:induction false} SplitPrefix(w: string, s: string)
    requires NoNewline(w)
    ensures Split(w + s) == [w + Split(s)[0]] + Split(s)[1..]
    decreases |w|
  {
    if |w| == 0 {
      assert w + s == s;
      assert w + Split(s)[0] == Split(s)[0];
      assert Split(s) == [Split(s)[0]] + Split(s)[1..];
    } else {
      assert (w + s)[0] == w[0];
      assert (w + s)[1..] == w[1..] + s;
      SplitPrefix(w[1..], s);
      assert [w[0]] + (w[1..] + Split(s)[0]) == w + Split(s)[0];
    }
  }

  /** The inverse direction: newline-free lines and a newline-free tail,
      framed and split again, come back unchanged. */
  lemma {:induction false} SplitOfFramed(lines: seq<string>, tail: string)
    requires AllNoNewline(lines) && NoNewline(tail)
    ensures Split(Flatten(lines) + tail) == lines + [tail]
    decreases |lines|
  {
    if |lines| == 0 {
      SplitPrefix(tail, "");
      assert tail + "" == tail;
      assert Flatten(lines) + tail == tail;
    } else {
      var rest := lines[1..];
      assert lines == [lines[0]] + rest;
      FlattenCons(lines[0], rest);
      SplitOfFramed(rest, tail);
      var after := Flatten(rest) + tail;
      assert Flatten(lines) + tail == lines[0] + ("\n" + after);
      SplitPrefix(lines[0], "\n" + after);
      assert ("\n" + after)[1..] == after;
      assert Split("\n" + after) == [""] + Split(after);
      assert lines[0] + "" == lines[0];
    }
  }

  /** Complete lines and pending text are the only newline-free framing of a text. */
  lemma FramingUnique(lines: seq<string>, tail: string, s: string)
    requires AllNoNewline(lines) && NoNewline(tail)
    requires Flatten(lines) + tail == s
    ensures CompleteLines(s) == lines && Pending(s) == tail
  {
    SplitOfFramed(lines, tail);
    assert Split(s) == lines + [tail];
    assert Split(s)[..|lines|] == lines;
  }

  /** The framing `split` produces: newline-free complete lines and a
      newline-free pending piece that together spell the text. */
  lemma FramingOf(x: string)
    ensures AllNoNewline(CompleteLines(x)) && NoNewline(Pending(x))
    ensures Flatten(CompleteLines(x)) + Pending(x) == x
  {
    SplitSpells(x);
    var parts := Split(x);
    var lines := CompleteLines(x);
    forall i | 0 <= i < |lines| ensures NoNewline(lines[i]) {
      assert lines[i] == parts[i];
    }
    assert Pending(x) == parts[|parts| - 1];
  }

  lemma AllNoNewlineAppend(a: seq<string>, b: seq<string>)
    requires AllNoNewline(a) && AllNoNewline(b)
    ensures AllNoNewline(a + b)
  {
    forall i | 0 <= i < |a + b| ensures NoNewline((a + b)[i]) {
      if i < |a| {
        assert (a + b)[i] == a[i];
      } else {
        assert (a + b)[i] == b[i - |a|];
      }
    }
  }

  /** Splitting `x + rest` at once yields the lines of `x`, then the lines
      of whatever `x` left pending followed by `rest`. */
  lemma CompleteLinesAppend(x: string, rest: string)
    ensures CompleteLines(x + rest) == CompleteLines(x) + CompleteLines(Pending(x) + rest)
    ensures Pending(x + rest) == Pending(Pending(x) + rest)
  {
    var y := Pending(x) + rest;
    FramingOf(x);
    FramingOf(y);
    var lines := CompleteLines(x) + CompleteLines(y);
    AllNoNewlineAppend(CompleteLines(x), CompleteLines(y));
    FlattenAppend(CompleteLines(x), CompleteLines(y));
    calc {
      Flatten(lines) + Pending(y);
      Flatten(CompleteLines(x)) + (Flatten(CompleteLines(y)) + Pending(y));
      Flatten(CompleteLines(x)) + y;
      (Flatten(CompleteLines(x)) + Pending(x)) + rest;
    }
    FramingUnique(lines, Pending(y), x + rest);
  }

  /** Text with no newline closes no line: it only extends the pending piece. */
  lemma CompleteLinesNoNewline(x: string, t: string)
    requires NoNewline(t)
    ensures CompleteLines(x + t) == CompleteLines(x)
    ensures Pending(x + t) == Pending(x) + t
  {
    CompleteLinesAppend(x, t);
    FramingOf(x);
    assert NoNewline(Pending(x) + t);
    assert Flatten([]) + (Pending(x) + t) == Pending(x) + t;
    FramingUnique([], Pending(x) + t, Pending(x) + t);
  }

  /** The text carried by a sequence of chunks, in order. */
  function Concat(chunks: seq<string>): string
    decreases |chunks|
  {
    if |chunks| == 0 then "" else Concat(chunks[..|chunks| - 1]) + chunks[|chunks| - 1]
  }

  lemma {:induction false} ConcatAppend(a: seq<string>, b: seq<string>)
    ensures Concat(a + b) == Concat(a) + Concat(b)
    decreases |b|
  {
    if |b| == 0 {
      assert a + b == a;
    } else {
      var init := b[..|b| - 1];
      assert (a + b)[..|a + b| - 1] == a + init;
      assert (a + b)[|a + b| - 1] == b[|b| - 1];
      ConcatAppend(a, init);
      assert Concat(b) == Concat(init) + b[|b| - 1];
    }
  }
}
