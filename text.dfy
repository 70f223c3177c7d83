/** String helpers the script takes from Python's `str` and `int`:
    `s.split('.')`, `s.replace('.', '')`, ASCII digit runs and `int(s)`. */
module Text {

  predicate IsDigit(c: char) {
    '0' <= c <= '9'
  }

  /** A non-empty run of ASCII digits: what the regular expression `\d+` matches
      when it is anchored on both sides. */
  predicate IsDigits(s: string) {
    |s| > 0 && forall k :: 0 <= k < |s| ==> IsDigit(s[k])
  }

  /** The index of the last dot of `s`, or -1 when it has none. */
  function LastDot(s: string): (r: int)
    ensures -1 <= r < |s|
    ensures r >= 0 ==> s[r] == '.'
    ensures forall k :: r < k < |s| ==> s[k] != '.'
    decreases |s|
  {
    if s == [] then -1
    else if s[|s| - 1] == '.' then |s| - 1
    else LastDot(s[..|s| - 1])
  }

  /** `s.split('.')`: the fields between the dots, left to right. There is always
      at least one field. */
  function Split(s: string): (r: seq<string>)
    ensures |r| >= 1
    decreases |s|
  {
    var i := LastDot(s);
    if i < 0 then [s] else Split(s[..i]) + [s[i + 1..]]
  }

  /** The fields joined back with dots: a left inverse of `Split`, used to state
      `JoinSplit`. */
  function Join(fields: seq<string>): string
    requires |fields| >= 1
    decreases |fields|
  {
    if |fields| == 1 then fields[0]
    else Join(fields[..|fields| - 1]) + "." + fields[|fields| - 1]
  }

  /** Joining the fields of a string with dots gives the string back. */
  lemma {:induction false} JoinSplit(s: string)
    ensures Join(Split(s)) == s
    decreases |s|
  {
    var i := LastDot(s);
    if i >= 0 {
      var init := Split(s[..i]);
      JoinSplit(s[..i]);
      assert (init + [s[i + 1..]])[..|init|] == init;
      assert s == s[..i] + "." + s[i + 1..];
    }
  }

  /** A string without dots is a single field. */
  lemma SplitDotFree(s: string)
    requires '.' !in s
    ensures Split(s) == [s]
  {
  }

  /** Splitting before a dot-free last field: the fields of `a + "." + d` are those
      of `a`, then `d`. */
  lemma SplitLastField(a: string, d: string)
    requires '.' !in d
    ensures Split(a + "." + d) == Split(a) + [d]
  {
    var s := a + "." + d;
    assert s[|a|] == '.';
    var i := LastDot(s);
    assert i == |a|;
    assert s[..i] == a && s[i + 1..] == d;
  }

  /** The fields of three dot-free strings joined by dots are those strings. */
  lemma SplitThree(a: string, b: string, c: string)
    requires '.' !in a && '.' !in b && '.' !in c
    ensures Split(a + "." + b + "." + c) == [a, b, c]
  {
    SplitLastField(a + "." + b, c);
    SplitLastField(a, b);
    SplitDotFree(a);
  }

  /** A run of digits contains no dot. */
  lemma DigitsDotFree(s: string)
    requires IsDigits(s)
    ensures '.' !in s
  {
  }

  /** `s.replace('.', '')`: the string with every dot removed. */
  function StripDots(s: string): (r: string)
    ensures '.' !in r
    ensures |r| <= |s|
    decreases |s|
  {
    if s == [] then ""
    else if s[0] == '.' then StripDots(s[1..])
    else [s[0]] + StripDots(s[1..])
  }

  /** Removing the dots keeps every other character and nothing else. */
  lemma {:induction false} StripDotsKeeps(s: string)
    ensures forall c :: c in StripDots(s) <==> c in s && c != '.'
    decreases |s|
  {
    if s != [] {
      StripDotsKeeps(s[1..]);
      assert s == [s[0]] + s[1..];
    }
  }

  /** Removing the dots of a string that has none changes nothing. */
  lemma {:induction false} StripDotsDotFree(s: string)
    requires '.' !in s
    ensures StripDots(s) == s
    decreases |s|
  {
    if s != [] {
      assert s[0] in s;
      assert forall c :: c in s[1..] ==> c in s;
      StripDotsDotFree(s[1..]);
      assert s == [s[0]] + s[1..];
    }
  }

  /** Removing the dots distributes over concatenation. */
  lemma {:induction false} StripDotsAppend(a: string, b: string)
    ensures StripDots(a + b) == StripDots(a) + StripDots(b)
    decreases |a|
  {
    if a != [] {
      assert (a + b)[0] == a[0];
      assert (a + b)[1..] == a[1..] + b;
      StripDotsAppend(a[1..], b);
    } else {
      assert a + b == b;
    }
  }

  /** `int(s)` for a run of ASCII digits: its decimal value. */
  function Num(s: string): nat
    decreases |s|
  {
    if s == [] then 0
    else Num(s[..|s| - 1]) * 10 + DigitValue(s[|s| - 1])
  }

  function DigitValue(c: char): nat {
    if IsDigit(c) then c as int - '0' as int else 0
  }
}
