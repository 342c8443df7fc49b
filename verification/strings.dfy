/** The Python string primitives the system relies on: `str.split(sep)`,
    `sep.join(xs)`, whitespace `str.split()`, `isdigit` and `isalpha`. */
module Strings {

  /** Python's `str.isspace` for one character: the separators that a
      bare `str.split()` splits on. */
  predicate IsSpace(c: char) {
    || 0x09 <= c as int <= 0x0D
    || 0x1C <= c as int <= 0x20
    || c as int == 0x85 || c as int == 0xA0 || c as int == 0x1680
    || 0x2000 <= c as int <= 0x200A
    || c as int == 0x2028 || c as int == 0x2029 || c as int == 0x202F
    || c as int == 0x205F || c as int == 0x3000
  }

  /** A non-empty run of non-whitespace characters. */
  predicate IsWord(w: string) {
    |w| > 0 && forall i :: 0 <= i < |w| ==> !IsSpace(w[i])
  }

  predicate IsDigit(c: char) { '0' <= c <= '9' }

  predicate IsLetter(c: char) { 'A' <= c <= 'Z' || 'a' <= c <= 'z' }

  /** Python's `str.isdigit`: non-empty and all digits. */
  predicate IsDigits(s: string) {
    |s| > 0 && forall i :: 0 <= i < |s| ==> IsDigit(s[i])
  }

  /** Python's `str.isalpha`: non-empty and all letters. */
  predicate IsAlphas(s: string) {
    |s| > 0 && forall i :: 0 <= i < |s| ==> IsLetter(s[i])
  }

  /** No string is both all digits and all letters. */
  lemma DigitsAreNotAlpha(s: string)
    requires IsDigits(s)
    ensures !IsAlphas(s)
  {
    assert IsDigit(s[0]);
  }

  // ---------------------------------------------------------------------
  // split / join on a single separator character

  /** Python's `s.split(sep)`: the maximal separator-free pieces, always at
      least one (`"".split(":") == [""]`). */
  function Split(s: string, sep: char): (parts: seq<string>)
    ensures |parts| >= 1
    ensures forall i :: 0 <= i < |parts| ==> sep !in parts[i]
  {
    if |s| == 0 then [""]
    else
      var rest := Split(s[1..], sep);
      if s[0] == sep then [""] + rest
      else [[s[0]] + rest[0]] + rest[1..]
  }

  /** Python's `sep.join(xs)`. */
  function Join(xs: seq<string>, sep: char): string
  {
    if |xs| == 0 then ""
    else if |xs| == 1 then xs[0]
    else xs[0] + [sep] + Join(xs[1..], sep)
  }

  /** Joining the pieces of a split gives back the original string. */
  lemma {:induction false} JoinSplit(s: string, sep: char)
    ensures Join(Split(s, sep), sep) == s
    decreases |s|
  {
    if |s| > 0 {
      var rest := Split(s[1..], sep);
      JoinSplit(s[1..], sep);
      if s[0] == sep {
        assert ([""] + rest)[1..] == rest;
      } else {
        var parts := [[s[0]] + rest[0]] + rest[1..];
        if |rest| == 1 {
          assert parts == [[s[0]] + rest[0]];
        } else {
          assert parts[1..] == rest[1..];
          assert Join(rest, sep) == rest[0] + [sep] + Join(rest[1..], sep);
        }
      }
    }
  }

  /** A separator-free string splits into itself alone. */
  lemma {:induction false} SplitNoSep(s: string, sep: char)
    requires sep !in s
    ensures Split(s, sep) == [s]
    decreases |s|
  {
    if |s| > 0 {
      assert s[0] != sep;
      SplitNoSep(s[1..], sep);
      assert Split(s, sep) == [[s[0]] + s[1..]];
      assert [s[0]] + s[1..] == s;
    }
  }

  /** Splitting at the first separator peels off the separator-free head. */
  lemma {:induction false} SplitCons(a: string, sep: char, t: string)
    requires sep !in a
    ensures Split(a + [sep] + t, sep) == [a] + Split(t, sep)
    decreases |a|
  {
    if |a| == 0 {
      assert a + [sep] + t == [sep] + t;
      assert ([sep] + t)[1..] == t;
    } else {
      assert (a + [sep] + t)[1..] == a[1..] + [sep] + t;
      assert a[0] != sep;
      SplitCons(a[1..], sep, t);
      assert [a[0]] + a[1..] == a;
    }
  }

  /** Splitting a join of separator-free pieces gives back the pieces; the
      list must be non-empty, since `"".split(sep) == [""]`. */
  lemma {:induction false} SplitJoin(xs: seq<string>, sep: char)
    requires |xs| >= 1
    requires forall i :: 0 <= i < |xs| ==> sep !in xs[i]
    ensures Split(Join(xs, sep), sep) == xs
    decreases |xs|
  {
    if |xs| == 1 {
      SplitNoSep(xs[0], sep);
    } else {
      SplitJoin(xs[1..], sep);
      SplitCons(xs[0], sep, Join(xs[1..], sep));
      assert [xs[0]] + xs[1..] == xs;
    }
  }

  /** Appending a piece appends a separator and the piece. */
  lemma {:induction false} JoinSnoc(xs: seq<string>, y: string, sep: char)
    requires |xs| >= 1
    ensures Join(xs + [y], sep) == Join(xs, sep) + [sep] + y
    decreases |xs|
  {
    if |xs| == 1 {
      assert (xs + [y])[1..] == [y];
    } else {
      assert (xs + [y])[1..] == xs[1..] + [y];
      JoinSnoc(xs[1..], y, sep);
    }
  }

  /** The last element of a non-empty list (Python's `xs[-1]`). */
  function Last<T>(xs: seq<T>): T
    requires |xs| >= 1
  {
    xs[|xs| - 1]
  }

  // ---------------------------------------------------------------------
  // whitespace split

  /** Length of the leading run of non-whitespace characters. */
  function WordLen(s: string): (n: nat)
    ensures n <= |s|
    ensures forall i :: 0 <= i < n ==> !IsSpace(s[i])
    ensures n < |s| ==> IsSpace(s[n])
  {
    if |s| == 0 || IsSpace(s[0]) then 0 else 1 + WordLen(s[1..])
  }

  /** Python's `s.split()` with no argument: the maximal runs of
      non-whitespace characters, in order, with no empty strings. */
  function Words(s: string): (ws: seq<string>)
    ensures forall i :: 0 <= i < |ws| ==> IsWord(ws[i])
    decreases |s|
  {
    if |s| == 0 then []
    else if IsSpace(s[0]) then Words(s[1..])
    else
      var n := WordLen(s);
      [s[..n]] + Words(s[n..])
  }

  /** The leading run is determined by where the first whitespace is. */
  lemma WordLenUnique(s: string, n: nat)
    requires n <= |s|
    requires forall i :: 0 <= i < n ==> !IsSpace(s[i])
    requires n < |s| ==> IsSpace(s[n])
    ensures WordLen(s) == n
  {
  }

  /** A single word splits into itself alone: there is no matching on
      substrings of a word. */
  lemma WordsOfWord(w: string)
    requires IsWord(w)
    ensures Words(w) == [w]
  {
    WordLenUnique(w, |w|);
    assert w[..|w|] == w;
    assert w[|w|..] == [];
  }

  /** Whitespace between two strings splits them apart. */
  lemma {:induction false} WordsAroundSpace(a: string, c: char, b: string)
    requires IsSpace(c)
    ensures Words(a + [c] + b) == Words(a) + Words(b)
    decreases |a|
  {
    var s := a + [c] + b;
    if |a| == 0 {
      assert s == [c] + b;
      assert s[1..] == b;
    } else if IsSpace(a[0]) {
      assert s[1..] == a[1..] + [c] + b;
      WordsAroundSpace(a[1..], c, b);
    } else {
      var m := WordLen(a);
      assert WordLen(s) == m by {
        assert forall i :: 0 <= i < m ==> s[i] == a[i];
        assert s[m] == if m < |a| then a[m] else c;
        WordLenUnique(s, m);
      }
      assert s[..m] == a[..m];
      assert s[m..] == a[m..] + [c] + b;
      WordsAroundSpace(a[m..], c, b);
      assert Words(s) == [a[..m]] + Words(s[m..]);
    }
  }

  /** Whitespace split is the inverse of joining words with a space. */
  lemma {:induction false} WordsJoin(ws: seq<string>)
    requires forall i :: 0 <= i < |ws| ==> IsWord(ws[i])
    ensures Words(Join(ws, ' ')) == ws
    decreases |ws|
  {
    if |ws| == 1 {
      WordsOfWord(ws[0]);
    } else if |ws| > 1 {
      WordsJoin(ws[1..]);
      WordsOfWord(ws[0]);
      WordsAroundSpace(ws[0], ' ', Join(ws[1..], ' '));
      assert [ws[0]] + ws[1..] == ws;
    }
  }
}
