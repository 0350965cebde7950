/** Python's notions of whitespace, line separators and stripping. */
module PythonText {

  predicate IsSpace(c: char) {
    var n := c as int;
    9 <= n <= 13 || 28 <= n <= 32 || n == 133 || n == 160 || n == 5760 || 8192 <= n <= 8202
    || n == 8232 || n == 8233 || n == 8239 || n == 8287 || n == 12288
  }

  /** The characters at which `splitlines` ends a line; all of them are whitespace. */
  predicate BreaksLine(c: char) {
    var n := c as int;
    10 <= n <= 13 || 28 <= n <= 30 || n == 133 || n == 8232 || n == 8233
  }

  /** What `isspace` and `splitlines` go by. */
  lemma WhitespaceIs(c: char)
    ensures IsSpace(c) <==> c as int in {9, 10, 11, 12, 13, 28, 29, 30, 31, 32, 133, 160, 5760, 8192, 8193, 8194, 8195, 8196,
                                         8197, 8198, 8199, 8200, 8201, 8202, 8232, 8233, 8239, 8287, 12288}
    ensures BreaksLine(c) <==> c as int in {10, 11, 12, 13, 28, 29, 30, 133, 8232, 8233}
    ensures BreaksLine(c) ==> IsSpace(c)
  {
  }

  function DropSpaces(s: string): (r: string)
    ensures |r| <= |s| && (r != "" ==> !IsSpace(r[0]))
  {
    if s != "" && IsSpace(s[0]) then DropSpaces(s[1..]) else s
  }

  function DropSpacesRight(s: string): (r: string)
    ensures |r| <= |s|
  {
    if s != "" && IsSpace(s[|s| - 1]) then DropSpacesRight(s[..|s| - 1]) else s
  }

  function Strip(s: string): string {
    DropSpacesRight(DropSpaces(s))
  }

  predicate Trimmed(s: string) {
    s != "" ==> !IsSpace(s[0]) && !IsSpace(s[|s| - 1])
  }

  lemma {:induction false} SpacesGo(spaces: string, rest: string)
    requires forall c :: c in spaces ==> IsSpace(c)
    ensures DropSpaces(spaces + rest) == DropSpaces(rest)
    decreases |spaces|
  {
    if spaces == "" {
      assert spaces + rest == rest;
    } else {
      assert spaces[0] in spaces && forall c :: c in spaces[1..] ==> c in spaces;
      assert (spaces + rest)[1..] == spaces[1..] + rest;
      SpacesGo(spaces[1..], rest);
    }
  }

  /** Exactly the whitespace in front goes. */
  lemma {:induction false} DropSpacesDrops(s: string)
    ensures var r := DropSpaces(s);
            && r == s[|s| - |r|..]
            && forall k :: 0 <= k < |s| - |r| ==> IsSpace(s[k])
  {
    if s != "" && IsSpace(s[0]) {
      DropSpacesDrops(s[1..]);
      var r := DropSpaces(s);
      forall k | 0 <= k < |s| - |r| ensures IsSpace(s[k]) {
        if k > 0 {
          assert s[k] == s[1..][k - 1];
        }
      }
    }
  }

  lemma {:induction false} DropSpacesRightDrops(s: string)
    ensures var r := DropSpacesRight(s);
            && r == s[..|r|]
            && (r != "" ==> !IsSpace(r[|r| - 1]))
            && forall k :: |r| <= k < |s| ==> IsSpace(s[k])
  {
    if s != "" && IsSpace(s[|s| - 1]) {
      var n := |s| - 1;
      DropSpacesRightDrops(s[..n]);
      forall k | |DropSpacesRight(s)| <= k < |s| ensures IsSpace(s[k]) {
        if k < n {
          assert s[k] == s[..n][k];
        }
      }
    }
  }

  lemma StripIsTrimmed(s: string)
    ensures Trimmed(Strip(s)) && forall c :: c in Strip(s) ==> c in s
    ensures s != "" && !IsSpace(s[0]) ==> Strip(s) != ""
  {
    DropSpacesDrops(s);
    DropSpacesRightDrops(DropSpaces(s));
  }

  lemma StripOfTrimmed(s: string)
    requires Trimmed(s)
    ensures Strip(s) == s
  {
  }
}
