/**
 * `get_requirements` of the package setup: the lines of the requirements file
 * with their newlines removed, minus the first "-e ." entry.
 */
module Requirements {

  /** The editable-install marker that must not reach `install_requires`. */
  const HyphenEDot: string := "-e ."

  /** `line.replace("\n", "")`. */
  function StripNewlines(line: string): (r: string)
    ensures '\n' !in r
    ensures |r| <= |line|
    ensures forall c :: c in r <==> c in line && c != '\n'
    ensures '\n' !in line ==> r == line
  {
    if line == [] then []
    else
      assert line == [line[0]] + line[1..];
      (if line[0] == '\n' then [] else [line[0]]) + StripNewlines(line[1..])
  }

  /** Stripping works piece by piece: the result for a concatenation is the concatenation of the results. */
  lemma {:induction false} StripConcat(a: string, b: string)
    ensures StripNewlines(a + b) == StripNewlines(a) + StripNewlines(b)
  {
    if a != [] {
      assert (a + b)[1..] == a[1..] + b;
      StripConcat(a[1..], b);
    } else {
      assert a + b == b;
    }
  }

  /** A line as `readlines` returns it, "pkg\n", becomes the line without its newline. */
  lemma StripTrailingNewline(x: string)
    requires '\n' !in x
    ensures StripNewlines(x + "\n") == x
  {
    StripConcat(x, "\n");
  }

  function StrippedLines(lines: seq<string>): seq<string>
  {
    seq(|lines|, i requires 0 <= i < |lines| => StripNewlines(lines[i]))
  }

  /** `list.remove(x)` when `x` is present: the list without its first occurrence of `x`. */
  function RemoveFirst(s: seq<string>, x: string): (r: seq<string>)
    ensures x !in s ==> r == s
    ensures x in s ==> |r| == |s| - 1
    ensures forall y :: y in r ==> y in s
  {
    if s == [] then []
    else if s[0] == x then s[1..]
    else [s[0]] + RemoveFirst(s[1..], x)
  }

  /** The position of the first occurrence of `x`. */
  function FirstIndex(s: seq<string>, x: string): (k: nat)
    requires x in s
    ensures k < |s| && s[k] == x
    ensures x !in s[..k]
  {
    if s[0] == x then 0
    else
      assert s == [s[0]] + s[1..];
      var k := FirstIndex(s[1..], x);
      assert s[..k + 1] == [s[0]] + s[1..][..k];
      k + 1
  }

  /**
   * Removing the first occurrence keeps the entries before it and after it in
   * order (later duplicates of `x` stay) and drops exactly one entry.
   */
  lemma RemoveFirstAt(s: seq<string>, x: string)
    requires x in s
    ensures RemoveFirst(s, x) == s[..FirstIndex(s, x)] + s[FirstIndex(s, x) + 1..]
    ensures |RemoveFirst(s, x)| == |s| - 1
    ensures multiset(RemoveFirst(s, x)) == multiset(s) - multiset{x}
  {
    var k := FirstIndex(s, x);
    RemoveFirstIsCut(s, x, k);
    CutMultiset(s, k);
  }

  /** Cutting out one position removes exactly that entry from the multiset. */
  lemma CutMultiset(s: seq<string>, k: nat)
    requires k < |s|
    ensures multiset(s[..k] + s[k + 1..]) == multiset(s) - multiset{s[k]}
  {
    assert s == s[..k] + [s[k]] + s[k + 1..];
  }

  /** Cutting out an occurrence of `x` that has no `x` before it is `RemoveFirst`. */
  lemma {:induction false} RemoveFirstIsCut(s: seq<string>, x: string, k: nat)
    requires k < |s| && s[k] == x && x !in s[..k]
    ensures RemoveFirst(s, x) == s[..k] + s[k + 1..]
  {
    if k > 0 {
      assert s[..k][0] == s[0];
      assert s[1..][..k - 1] == s[..k][1..];
      RemoveFirstIsCut(s[1..], x, k - 1);
      assert s[..k] == [s[0]] + s[1..][..k - 1];
    }
  }

  /**
   * Python's `list.remove(x)`: scan for the first entry equal to `x` and cut
   * it out; `x` must be present (the call raises ValueError otherwise).
   */
  method ListRemove(list: seq<string>, x: string) returns (r: seq<string>)
    requires x in list
    ensures r == RemoveFirst(list, x)
  {
    var k := 0;
    while list[k] != x
      invariant k < |list| && x in list[k..]
      invariant x !in list[..k]
      decreases |list| - k
    {
      assert list[k..] == [list[k]] + list[k + 1..];
      assert list[..k + 1] == list[..k] + [list[k]];
      k := k + 1;
    }
    RemoveFirstIsCut(list, x, k);
    r := list[..k] + list[k + 1..];
  }

  /**
   * The requirements list for the given file lines: every entry is the line
   * with its newlines removed; when "-e ." occurs among them its first
   * occurrence is removed and nothing else.
   */
  method GetRequirements(lines: seq<string>) returns (requirementsList: seq<string>)
    ensures forall i :: 0 <= i < |requirementsList| ==> '\n' !in requirementsList[i]
    ensures HyphenEDot !in StrippedLines(lines) ==> requirementsList == StrippedLines(lines)
    ensures HyphenEDot in StrippedLines(lines) ==> requirementsList == RemoveFirst(StrippedLines(lines), HyphenEDot)
  {
    requirementsList := StrippedLines(lines);
    if HyphenEDot in requirementsList {
      RemoveFirstAt(requirementsList, HyphenEDot);
      requirementsList := ListRemove(requirementsList, HyphenEDot);
    }
  }
}
