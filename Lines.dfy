/**
 * The three Python string operations that the .env update in agents/agent.py relies on:
 * `content.split('\n')`, `'\n'.join(lines)` and the substring test `key in content`.
 */
module Lines {

  /** Python's `s.split('\n')`: always at least one piece, and no piece contains a newline. */
  function Split(s: string): (lines: seq<string>)
    ensures |lines| >= 1
    ensures forall i :: 0 <= i < |lines| ==> '\n' !in lines[i]
    decreases |s|
  {
    if s == [] then [[]]
    else if s[0] == '\n' then [[]] + Split(s[1..])
    else
      var rest := Split(s[1..]);
      [[s[0]] + rest[0]] + rest[1..]
  }

  /** Python's `'\n'.join(lines)`. */
  function Join(lines: seq<string>): (r: string)
    // the text starts with the first line
    ensures |lines| >= 1 ==> lines[0] <= r
    // the lines are separated by newlines
    ensures |lines| >= 2 ==> '\n' in r
  {
    if |lines| == 0 then []
    else if |lines| == 1 then lines[0]
    else lines[0] + "\n" + Join(lines[1..])
  }

  /** Python's `sub in s` on two strings. */
  predicate Contains(s: string, sub: string)
    // `sub` occurs at some position of `s`
    ensures Contains(s, sub) <==> exists i :: 0 <= i <= |s| && sub <= s[i..]
    decreases |s|
  {
    assert s[0..] == s;
    assert forall i :: 1 <= i <= |s| ==> s[1..][i - 1..] == s[i..];
    sub <= s || (s != [] && Contains(s[1..], sub))
  }

  /** Joining the pieces of a split gives back the original text. */
  lemma {:induction false} JoinSplit(s: string)
    ensures Join(Split(s)) == s
    decreases |s|
  {
    if s == [] {
    } else if s[0] == '\n' {
      JoinSplit(s[1..]);
      assert Split(s) == [[]] + Split(s[1..]);
      assert s == "\n" + s[1..];
    } else {
      JoinSplit(s[1..]);
      var rest := Split(s[1..]);
      assert Split(s) == [[s[0]] + rest[0]] + rest[1..];
      if |rest| == 1 {
        assert Join(rest) == rest[0];
        assert s == [s[0]] + s[1..];
      } else {
        assert Join(rest) == rest[0] + "\n" + Join(rest[1..]);
        assert Split(s)[1..] == rest[1..];
        assert s == [s[0]] + s[1..];
      }
    }
  }

  /** Splitting around one newline splits each side on its own. */
  lemma {:induction false} SplitConcat(a: string, b: string)
    ensures Split(a + "\n" + b) == Split(a) + Split(b)
    decreases |a|
  {
    var s := a + "\n" + b;
    if a == [] {
      assert s == "\n" + b;
      assert s[1..] == b;
    } else if a[0] == '\n' {
      assert s[1..] == a[1..] + "\n" + b;
      SplitConcat(a[1..], b);
    } else {
      assert s[0] == a[0];
      assert s[1..] == a[1..] + "\n" + b;
      SplitConcat(a[1..], b);
      var ra := Split(a[1..]);
      assert Split(s[1..]) == ra + Split(b);
      assert (ra + Split(b))[0] == ra[0];
      assert (ra + Split(b))[1..] == ra[1..] + Split(b);
    }
  }

  /** A text without newlines is a single line. */
  lemma {:induction false} SplitSingleLine(a: string)
    requires '\n' !in a
    ensures Split(a) == [a]
    decreases |a|
  {
    if a != [] {
      assert '\n' !in a[1..];
      SplitSingleLine(a[1..]);
      assert [a[0]] + a[1..] == a;
    }
  }

  /** Splitting a join of newline-free lines gives back those lines. */
  lemma {:induction false} SplitJoin(lines: seq<string>)
    requires |lines| >= 1
    requires forall i :: 0 <= i < |lines| ==> '\n' !in lines[i]
    ensures Split(Join(lines)) == lines
    decreases |lines|
  {
    if |lines| == 1 {
      SplitSingleLine(lines[0]);
    } else {
      SplitJoin(lines[1..]);
      SplitConcat(lines[0], Join(lines[1..]));
      SplitSingleLine(lines[0]);
      assert [lines[0]] + lines[1..] == lines;
    }
  }

  /** A substring of the suffix is a substring of the whole. */
  lemma {:induction false} ContainsInSuffix(a: string, b: string, sub: string)
    requires Contains(b, sub)
    ensures Contains(a + b, sub)
    decreases |a|
  {
    if a == [] {
      assert a + b == b;
    } else {
      assert (a + b)[1..] == a[1..] + b;
      ContainsInSuffix(a[1..], b, sub);
    }
  }

  /** If one line of a join starts with `sub`, the joined text contains `sub`. */
  lemma {:induction false} ContainsLinePrefix(lines: seq<string>, i: nat, sub: string)
    requires i < |lines| && sub <= lines[i]
    ensures Contains(Join(lines), sub)
    decreases |lines|
  {
    if |lines| == 1 {
    } else if i == 0 {
      assert Join(lines) == lines[0] + ("\n" + Join(lines[1..]));
      assert sub <= Join(lines);
    } else {
      ContainsLinePrefix(lines[1..], i - 1, sub);
      assert Join(lines) == (lines[0] + "\n") + Join(lines[1..]);
      ContainsInSuffix(lines[0] + "\n", Join(lines[1..]), sub);
    }
  }
}
