/** How a line addressed to the bot becomes a command and its argument
    (`TODObot._parse_commands` and the clean-up that precedes it). */
module Commands {
  import opened Text

  /** `msg.strip().replace("\n", "")`: what `react_to_message` parses. It has
      no newline and, since a newline is white space, still neither starts nor
      ends with white space. */
  function Cleaned(msg: string): (r: string)
    ensures '\n' !in r
    ensures r == [] || (!IsSpace(r[0]) && !IsSpace(r[|r| - 1]))
  {
    var s := Strip(msg);
    if s != [] then RemoveAllKeepsEnds(s, '\n'); RemoveAll(s, '\n')
    else RemoveAll(s, '\n')
  }

  /** Position of the first `c` in `s`. */
  function FirstIndexOf(s: string, c: char): (k: nat)
    requires c in s
    ensures k < |s| && s[k] == c && c !in s[..k]
  {
    if s[0] == c then
      0
    else
      var k := FirstIndexOf(s[1..], c) + 1;
      assert s[..k] == [s[0]] + s[1..][..k - 1];
      k
  }

  /** `m.split(" ", 1)`, padded to two parts: the text before the first
      space and everything after it; without a space, all of `m` and "". */
  function SplitAtSpace(m: string): (r: (string, string))
    ensures if ' ' in m then ' ' !in r.0 && r.0 + " " + r.1 == m
            else r.0 == m && r.1 == ""
  {
    if ' ' in m then
      var k := FirstIndexOf(m, ' ');
      SplitAround(m, k);
      (m[..k], m[k + 1..])
    else
      (m, "")
  }

  lemma SplitAround(m: string, k: nat)
    requires k < |m|
    ensures m[..k] + [m[k]] + m[k + 1..] == m
  {
    assert m[k..] == [m[k]] + m[k + 1..];
    assert m == m[..k] + m[k..];
  }

  /** A line splits at its first space in one way only. */
  lemma SplitIsUnique(w: string, a: string, u: string, b: string)
    requires ' ' !in w && ' ' !in u && w + " " + a == u + " " + b
    ensures w == u && a == b
  {
    var t := w + " " + a;
    assert t == u + " " + b;
    assert forall k :: 0 <= k < |w| ==> t[k] != ' ';
    assert forall k :: 0 <= k < |u| ==> t[k] != ' ';
    assert t[|w|] == ' ' && t[|u|] == ' ';
    assert w == t[..|w|] && u == t[..|u|];
    assert a == t[|w| + 1..] && b == t[|u| + 1..];
  }

  /** `_parse_commands`: strips the message and splits it at its first single
      space into the command and the rest, which keeps any further spaces;
      without a space the rest is empty. */
  function ParseCommands(message: string): (r: (string, string))
    ensures var m := Strip(message);
            if ' ' in m then ' ' !in r.0 && r.0 + " " + r.1 == m
            else r.0 == m && r.1 == ""
  {
    SplitAtSpace(Strip(message))
  }

  /** A command word without white space, one space and an argument that has
      no newline and does not end in white space parse back into that word and
      that argument. */
  lemma ParseOfWordAndArgument(w: string, a: string)
    requires w != [] && forall k :: 0 <= k < |w| ==> !IsSpace(w[k])
    requires '\n' !in a && (a == [] || !IsSpace(a[|a| - 1]))
    ensures ParseCommands(Cleaned(w + " " + a)) == (w, a)
  {
    var line := w + " " + a;
    assert ' ' !in w && '\n' !in w;
    var cleaned: string;
    if a == [] {
      assert line[0] == w[0] && line[..|line| - 1] == w;
      assert LStrip(line) == line;
      assert RStrip(w) == w;
      assert RStrip(line) == w;
      assert Strip(line) == w;
      cleaned := w;
    } else {
      assert '\n' !in line;
      StripOfStripped(line);
      cleaned := line;
    }
    assert Cleaned(line) == cleaned;
    ParseOfCleaned(w, a, cleaned);
  }

  /** The split of a line that is already clean. */
  lemma ParseOfCleaned(w: string, a: string, cleaned: string)
    requires w != [] && !IsSpace(w[0]) && !IsSpace(w[|w| - 1]) && ' ' !in w
    requires if a == [] then cleaned == w else cleaned == w + " " + a && !IsSpace(a[|a| - 1])
    ensures ParseCommands(cleaned) == (w, a)
  {
    StripOfStripped(cleaned);
    assert ParseCommands(cleaned) == SplitAtSpace(cleaned);
    if a != [] {
      var r := SplitAtSpace(cleaned);
      assert cleaned[|w|] == ' ';
      SplitIsUnique(r.0, r.1, w, a);
    }
  }

  /** The argument never ends in white space, so an argument that is not
      empty is never blank. */
  lemma ArgumentEndsInText(message: string)
    ensures var arg := ParseCommands(message).1;
            arg == [] || !IsSpace(arg[|arg| - 1])
  {
    var m := Strip(message);
    var r := ParseCommands(message);
    if ' ' in m && r.1 != [] {
      assert m[|m| - 1] == r.1[|r.1| - 1];
    }
  }
}
