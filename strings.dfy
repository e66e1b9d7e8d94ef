/**
 * The JavaScript string operations the command handlers rely on:
 * `String.prototype.includes`, ASCII `toLowerCase`/`toUpperCase`, the
 * decimal rendering of a number inside a template literal, and
 * `Array.prototype.join("\n")`, together with splitting a reply back into
 * its lines, which is how the line structure of a reply is stated.
 */
module Strings {

  // ---------------------------------------------------------------------------
  // includes
  // ---------------------------------------------------------------------------

  /** `sub` occurs in `s` starting at index `i`. */
  predicate OccursAt(s: string, sub: string, i: nat)
  {
    i + |sub| <= |s| && s[i..i + |sub|] == sub
  }

  /** `s.includes(sub)`: `sub` occurs in `s` at some index. */
  predicate Contains(s: string, sub: string)
  {
    exists i: nat :: i <= |s| && OccursAt(s, sub, i)
  }

  /** A non-empty string whose first character never appears in `s` is not in `s`. */
  lemma FirstCharAbsent(s: string, sub: string)
    requires |sub| > 0 && sub[0] !in s
    ensures !Contains(s, sub)
  {
    forall i: nat | i <= |s| ensures !OccursAt(s, sub, i) {
      if i + |sub| <= |s| {
        assert s[i..i + |sub|][0] == s[i];
      }
    }
  }

  /**
   * A string in which the first character of `sub` occurs only at index
   * `k`, where `sub` does not start, does not contain `sub`.
   */
  lemma OnlyCandidateFails(s: string, sub: string, k: nat)
    requires |sub| > 0 && k < |s|
    requires sub[0] !in s[..k] && sub[0] !in s[k + 1..]
    requires !(sub <= s[k..])
    ensures !Contains(s, sub)
  {
    forall i: nat | i <= |s| && i + |sub| <= |s| ensures !OccursAt(s, sub, i) {
      if i < k {
        assert s[i] == s[..k][i];
      } else if i > k {
        assert s[i] == s[k + 1..][i - k - 1];
      } else {
        assert s[k..][..|sub|] == s[i..i + |sub|];
      }
      assert s[i..i + |sub|][0] == s[i];
    }
  }

  // ---------------------------------------------------------------------------
  // ASCII case mapping (toLowerCase / toUpperCase restricted to ASCII letters)
  // ---------------------------------------------------------------------------

  function LowerChar(c: char): char
  {
    if 'A' <= c <= 'Z' then (c as int + 32) as char else c
  }

  function UpperChar(c: char): char
  {
    if 'a' <= c <= 'z' then (c as int - 32) as char else c
  }

  function Lower(s: string): string
  {
    seq(|s|, i requires 0 <= i < |s| => LowerChar(s[i]))
  }

  function Upper(s: string): string
  {
    seq(|s|, i requires 0 <= i < |s| => UpperChar(s[i]))
  }

  /**
   * Upper-casing forgets a preceding lower-casing, a mapping is empty only
   * for the empty string, and neither mapping touches a line break.
   */
  lemma UpperOfLower(s: string)
    ensures Upper(Lower(s)) == Upper(s)
    ensures Lower(s) == "" <==> s == ""
    ensures '\n' in Upper(s) <==> '\n' in s
    ensures '\n' in Lower(s) <==> '\n' in s
  {
    forall i | 0 <= i < |s| ensures Upper(Lower(s))[i] == Upper(s)[i] {
      var c := s[i];
      if 'A' <= c <= 'Z' {
        assert LowerChar(c) as int == c as int + 32;
      }
    }
    if '\n' in Upper(s) {
      var i :| 0 <= i < |s| && Upper(s)[i] == '\n';
      assert s[i] == '\n';
    }
    if '\n' in s {
      var i :| 0 <= i < |s| && s[i] == '\n';
      assert Upper(s)[i] == '\n';
    }
    if '\n' in Lower(s) {
      var i :| 0 <= i < |s| && Lower(s)[i] == '\n';
      assert s[i] == '\n';
    }
    if '\n' in s {
      var i :| 0 <= i < |s| && s[i] == '\n';
      assert Lower(s)[i] == '\n';
    }
  }

  // ---------------------------------------------------------------------------
  // Decimal rendering of a natural number, as `${n}` prints it
  // ---------------------------------------------------------------------------

  predicate IsDigits(s: string)
  {
    forall i :: 0 <= i < |s| ==> '0' <= s[i] <= '9'
  }

  function DigitChar(d: nat): (c: char)
    requires d < 10
    ensures '0' <= c <= '9'
  {
    ('0' as int + d) as char
  }

  function DigitValue(c: char): nat
    requires '0' <= c <= '9'
  {
    c as int - '0' as int
  }

  /** The decimal digits of `n`, most significant first, with no leading zero. */
  function Decimal(n: nat): (s: string)
    ensures |s| >= 1 && IsDigits(s)
    ensures '\n' !in s
    ensures n >= 10 ==> s[0] != '0'
    decreases n
  {
    if n < 10 then [DigitChar(n)] else Decimal(n / 10) + [DigitChar(n % 10)]
  }

  /** Reads a string of decimal digits back as a number. */
  function ParseDecimal(s: string): nat
    requires IsDigits(s)
    decreases |s|
  {
    if s == [] then 0 else 10 * ParseDecimal(s[..|s| - 1]) + DigitValue(s[|s| - 1])
  }

  /** Rendering a number and reading it back gives the number. */
  lemma {:induction false} DecimalRoundTrip(n: nat)
    ensures ParseDecimal(Decimal(n)) == n
    decreases n
  {
    var s := Decimal(n);
    if n >= 10 {
      DecimalRoundTrip(n / 10);
      assert s[..|s| - 1] == Decimal(n / 10);
    }
  }

  // ---------------------------------------------------------------------------
  // Lines: join("\n"), newline-terminated lines, and splitting at "\n"
  // ---------------------------------------------------------------------------

  predicate NoBreak(s: string)
  {
    '\n' !in s
  }

  predicate NoBreaks(lines: seq<string>)
  {
    forall i :: 0 <= i < |lines| ==> NoBreak(lines[i])
  }

  lemma NoBreaksAppend(a: seq<string>, b: seq<string>)
    requires NoBreaks(a) && NoBreaks(b)
    ensures NoBreaks(a + b)
  {
    forall i | 0 <= i < |a + b| ensures NoBreak((a + b)[i]) {
      if i < |a| {
        assert (a + b)[i] == a[i];
      } else {
        assert (a + b)[i] == b[i - |a|];
      }
    }
  }

  /** `lines.join("\n")`. */
  function Join(lines: seq<string>): string
  {
    if |lines| == 0 then ""
    else if |lines| == 1 then lines[0]
    else lines[0] + "\n" + Join(lines[1..])
  }

  /** Every line followed by "\n", as a loop of `text += line + "\n"` builds it. */
  function Terminated(lines: seq<string>): string
  {
    if lines == [] then "" else lines[0] + "\n" + Terminated(lines[1..])
  }

  /** `s.split("\n")`: the maximal break-free pieces of `s`, in order. */
  function Split(s: string): (parts: seq<string>)
    ensures |parts| >= 1
    decreases |s|
  {
    if |s| == 0 then [""]
    else
      var rest := Split(s[1..]);
      if s[0] == '\n' then [""] + rest
      else [[s[0]] + rest[0]] + rest[1..]
  }

  lemma {:induction false} SplitNoBreak(s: string)
    requires NoBreak(s)
    ensures Split(s) == [s]
    decreases |s|
  {
    if |s| > 0 {
      SplitNoBreak(s[1..]);
      assert [s[0]] + s[1..] == s;
    }
  }

  lemma {:induction false} SplitAfterLine(line: string, rest: string)
    requires NoBreak(line)
    ensures Split(line + "\n" + rest) == [line] + Split(rest)
    decreases |line|
  {
    var s := line + "\n" + rest;
    if |line| == 0 {
      assert s[1..] == rest;
    } else {
      assert s[1..] == line[1..] + "\n" + rest;
      SplitAfterLine(line[1..], rest);
      assert [line[0]] + line[1..] == line;
    }
  }

  /** Splitting newline-terminated lines followed by `rest` recovers the lines. */
  lemma {:induction false} SplitTerminated(lines: seq<string>, rest: string)
    requires NoBreaks(lines)
    ensures Split(Terminated(lines) + rest) == lines + Split(rest)
    decreases |lines|
  {
    if lines != [] {
      assert Terminated(lines) + rest == lines[0] + "\n" + (Terminated(lines[1..]) + rest);
      SplitAfterLine(lines[0], Terminated(lines[1..]) + rest);
      SplitTerminated(lines[1..], rest);
      calc {
        Split(Terminated(lines) + rest);
        [lines[0]] + Split(Terminated(lines[1..]) + rest);
        [lines[0]] + (lines[1..] + Split(rest));
        ([lines[0]] + lines[1..]) + Split(rest);
        { assert [lines[0]] + lines[1..] == lines; }
        lines + Split(rest);
      }
    } else {
      assert Terminated(lines) + rest == rest;
    }
  }

  lemma TerminatedFour(a: string, b: string, c: string, d: string)
    ensures Terminated([a, b, c, d]) == a + "\n" + b + "\n" + c + "\n" + d + "\n"
  {
    assert [a, b, c, d][1..] == [b, c, d];
    assert [b, c, d][1..] == [c, d];
    assert [c, d][1..] == [d];
    assert [d][1..] == [];
    calc {
      Terminated([a, b, c, d]);
      a + "\n" + Terminated([b, c, d]);
      a + "\n" + (b + "\n" + Terminated([c, d]));
      a + "\n" + (b + "\n" + (c + "\n" + Terminated([d])));
      a + "\n" + (b + "\n" + (c + "\n" + (d + "\n")));
    }
  }

  lemma {:induction false} TerminatedAppend(a: seq<string>, b: seq<string>)
    ensures Terminated(a + b) == Terminated(a) + Terminated(b)
    decreases |a|
  {
    if a != [] {
      assert (a + b)[1..] == a[1..] + b;
      TerminatedAppend(a[1..], b);
      calc {
        Terminated(a + b);
        a[0] + "\n" + Terminated(a[1..] + b);
        a[0] + "\n" + (Terminated(a[1..]) + Terminated(b));
        (a[0] + "\n" + Terminated(a[1..])) + Terminated(b);
      }
    } else {
      assert a + b == b;
    }
  }

  /** Joining non-empty lines and going on after a "\n" terminates every line. */
  lemma {:induction false} JoinThenBreak(lines: seq<string>, rest: string)
    requires |lines| >= 1
    ensures Join(lines) + "\n" + rest == Terminated(lines) + rest
    decreases |lines|
  {
    if |lines| > 1 {
      JoinThenBreak(lines[1..], rest);
      calc {
        Join(lines) + "\n" + rest;
        lines[0] + "\n" + (Join(lines[1..]) + "\n" + rest);
        lines[0] + "\n" + (Terminated(lines[1..]) + rest);
        Terminated(lines) + rest;
      }
    }
  }

  /** `join` and `split` are inverse on break-free lines. */
  lemma {:induction false} SplitJoin(lines: seq<string>)
    requires NoBreaks(lines)
    ensures Split(Join(lines)) == if lines == [] then [""] else lines
    decreases |lines|
  {
    if |lines| == 1 {
      SplitNoBreak(lines[0]);
    } else if |lines| > 1 {
      SplitAfterLine(lines[0], Join(lines[1..]));
      SplitJoin(lines[1..]);
      assert [lines[0]] + lines[1..] == lines;
    }
  }

  /** Joined lines and a break between two terminated blocks are one terminated block. */
  lemma TerminatedAroundJoin(head: seq<string>, lines: seq<string>, feet: seq<string>, last: string)
    requires |lines| >= 1
    ensures Terminated(head) + (Join(lines) + "\n" + (Terminated(feet) + last)) == Terminated(head + lines + feet) + last
  {
    calc {
      Terminated(head) + (Join(lines) + "\n" + (Terminated(feet) + last));
      { JoinThenBreak(lines, Terminated(feet) + last); }
      Terminated(head) + (Terminated(lines) + (Terminated(feet) + last));
      (Terminated(head) + Terminated(lines) + Terminated(feet)) + last;
      { TerminatedAppend(head, lines); }
      (Terminated(head + lines) + Terminated(feet)) + last;
      { TerminatedAppend(head + lines, feet); }
      Terminated(head + lines + feet) + last;
    }
  }

  /**
   * Terminated lines, then lines joined and ended by a break, then more
   * terminated lines and a last piece split back into all of them.
   */
  lemma SplitAroundJoin(head: seq<string>, lines: seq<string>, feet: seq<string>, last: string)
    requires |lines| >= 1 && NoBreaks(head) && NoBreaks(lines) && NoBreaks(feet) && NoBreak(last)
    ensures Split(Terminated(head) + (Join(lines) + "\n" + (Terminated(feet) + last))) == head + lines + feet + [last]
  {
    TerminatedAroundJoin(head, lines, feet, last);
    NoBreaksAppend(head, lines);
    NoBreaksAppend(head + lines, feet);
    SplitTerminated(head + lines + feet, last);
    SplitNoBreak(last);
  }

  /** A line, an empty line, then joined lines split back into them. */
  lemma SplitLineBlankJoin(line: string, lines: seq<string>)
    requires NoBreak(line) && NoBreaks(lines)
    ensures Split(line + "\n\n" + Join(lines)) == [line, ""] + (if lines == [] then [""] else lines)
  {
    var rest := "" + "\n" + Join(lines);
    assert line + "\n\n" + Join(lines) == line + "\n" + rest;
    SplitAfterLine(line, rest);
    assert Split(rest) == [""] + Split(Join(lines)) by {
      SplitAfterLine("", Join(lines));
    }
    SplitJoin(lines);
  }
}
