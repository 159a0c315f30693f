/** Python's `"\n".join(parts)` and `s.split("\n")` on strings, and the
    round trips between them. */
module TextLines {

  predicate NoNewline(s: string)
  {
    '\n' !in s
  }

  /** `"\n".join(parts)`. */
  function Join(parts: seq<string>): string
  {
    if |parts| == 0 then ""
    else if |parts| == 1 then parts[0]
    else parts[0] + "\n" + Join(parts[1..])
  }

  /** A line followed by at least one more: the line, a newline, the rest. */
  lemma JoinCons(line: string, rest: seq<string>)
    requires |rest| >= 1
    ensures Join([line] + rest) == line + "\n" + Join(rest)
  {
    assert ([line] + rest)[1..] == rest;
  }

  lemma JoinSixLines(a: string, b: string, c: string, d: string, e: string, f: string)
    ensures Join([a, b, c, d, e, f]) == a + "\n" + b + "\n" + c + "\n" + d + "\n" + e + "\n" + f
  {
    assert [a, b, c, d, e, f] == [a] + [b, c, d, e, f];
    assert [b, c, d, e, f] == [b] + [c, d, e, f];
    assert [c, d, e, f] == [c] + [d, e, f];
    assert [d, e, f] == [d] + [e, f];
    assert [e, f] == [e] + [f];
    JoinCons(e, [f]);
    JoinCons(d, [e, f]);
    JoinCons(c, [d, e, f]);
    JoinCons(b, [c, d, e, f]);
    JoinCons(a, [b, c, d, e, f]);
  }

  lemma JoinSevenLines(a: string, b: string, c: string, d: string, e: string, f: string, g: string)
    ensures Join([a, b, c, d, e, f, g]) == a + "\n" + b + "\n" + c + "\n" + d + "\n" + e + "\n" + f + "\n" + g
  {
    assert [a, b, c, d, e, f, g] == [a] + [b, c, d, e, f, g];
    JoinSixLines(b, c, d, e, f, g);
    JoinCons(a, [b, c, d, e, f, g]);
  }

  /** `s.split("\n")`: never empty; the empty string splits into `[""]`. */
  function Split(s: string): (lines: seq<string>)
    ensures |lines| >= 1
    ensures forall k :: 0 <= k < |lines| ==> NoNewline(lines[k])
  {
    if s == [] then [""]
    else
      var rest := Split(s[1..]);
      if s[0] == '\n' then [""] + rest
      else [[s[0]] + rest[0]] + rest[1..]
  }

  /** A string without a newline is a single line. */
  lemma {:induction false} SplitSingleLine(a: string)
    requires NoNewline(a)
    ensures Split(a) == [a]
  {
    if a != [] {
      SplitSingleLine(a[1..]);
      assert [a[0]] + a[1..] == a;
    }
  }

  /** The first newline ends the first line. */
  lemma {:induction false} SplitFirstLine(a: string, b: string)
    requires NoNewline(a)
    ensures Split(a + "\n" + b) == [a] + Split(b)
  {
    if a == [] {
      assert a + "\n" + b == "\n" + b;
      assert ("\n" + b)[1..] == b;
    } else {
      assert (a + "\n" + b)[1..] == a[1..] + "\n" + b;
      SplitFirstLine(a[1..], b);
      assert [a[0]] + a[1..] == a;
    }
  }

  /** Splitting undoes joining newline-free lines. */
  lemma {:induction false} SplitJoin(parts: seq<string>)
    requires |parts| >= 1
    requires forall k :: 0 <= k < |parts| ==> NoNewline(parts[k])
    ensures Split(Join(parts)) == parts
  {
    if |parts| == 1 {
      SplitSingleLine(parts[0]);
    } else {
      SplitJoin(parts[1..]);
      SplitFirstLine(parts[0], Join(parts[1..]));
      assert [parts[0]] + parts[1..] == parts;
    }
  }

  /** Joining undoes splitting. */
  lemma {:induction false} JoinSplit(s: string)
    ensures Join(Split(s)) == s
  {
    if s != [] {
      var rest := Split(s[1..]);
      JoinSplit(s[1..]);
      if s[0] == '\n' {
        assert ([""] + rest)[1..] == rest;
        assert Join([""] + rest) == "" + "\n" + Join(rest);
        assert s == "\n" + s[1..];
      } else {
        var lines := [[s[0]] + rest[0]] + rest[1..];
        assert lines[1..] == rest[1..];
        if |rest| == 1 {
          assert Join(lines) == [s[0]] + rest[0];
        } else {
          assert Join(rest) == rest[0] + "\n" + Join(rest[1..]);
          assert Join(lines) == [s[0]] + rest[0] + "\n" + Join(rest[1..]);
        }
        assert s == [s[0]] + s[1..];
      }
    }
  }
}
