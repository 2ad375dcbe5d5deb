/**
 * The code-block page of the frontend (frontend/src/CodeBlockPage.jsx):
 * `normalizeCode`, which deletes whitespace before comparing an edit with
 * the block's solution, and `handleCodeChange`, which stores the edit,
 * sends it to the server and decides whether the smiley is shown.
 *
 * What counts as whitespace is the parameter `ws`: the one set that both
 * the regular-expression class `\s` and `String.prototype.trim` use.
 */
module Editor {

  import opened Wrappers

  /** No character of `s` is whitespace. */
  predicate Spaceless(ws: char -> bool, s: string)
  {
    forall i :: 0 <= i < |s| ==> !ws(s[i])
  }

  /** The reference meaning: `s` with every whitespace character removed, the others kept in order. */
  function WithoutSpace(ws: char -> bool, s: string): string
  {
    if s == [] then [] else (if ws(s[0]) then [] else [s[0]]) + WithoutSpace(ws, s[1..])
  }

  /** The longest suffix of `s` that does not start with whitespace (a maximal `\s+` run, or trimStart). */
  function DropLeadingSpace(ws: char -> bool, s: string): (r: string)
    ensures |r| <= |s|
    ensures s != [] && ws(s[0]) ==> |r| < |s|
    ensures r == [] || !ws(r[0])
  {
    if s != [] && ws(s[0]) then DropLeadingSpace(ws, s[1..]) else s
  }

  /** The longest prefix of `s` that does not end with whitespace (trimEnd); it loses no other character. */
  function DropTrailingSpace(ws: char -> bool, s: string): (r: string)
    ensures |r| <= |s| && r == s[..|r|]
    ensures r == [] || !ws(r[|r| - 1])
    ensures WithoutSpace(ws, r) == WithoutSpace(ws, s)
  {
    if s != [] && ws(s[|s| - 1]) then
      var init := s[..|s| - 1];
      assert s == init + [s[|s| - 1]];
      WithoutSpaceAppend(ws, init, [s[|s| - 1]]);
      DropTrailingSpace(ws, init)
    else s
  }

  /**
   * `String.prototype.trim`: the result neither starts nor ends with
   * whitespace and keeps every non-whitespace character.
   */
  function Trim(ws: char -> bool, s: string): (r: string)
    ensures |r| <= |s|
    ensures r == [] || (!ws(r[0]) && !ws(r[|r| - 1]))
    ensures WithoutSpace(ws, r) == WithoutSpace(ws, s)
  {
    DropLeadingSpaceKeepsText(ws, s);
    DropTrailingSpace(ws, DropLeadingSpace(ws, s))
  }

  /**
   * `s.replace(/\s+/g, "")`: each maximal run of whitespace, scanned left to
   * right, becomes "". The result is exactly `s` with its whitespace
   * characters removed.
   */
  function ReplaceSpaceRuns(ws: char -> bool, s: string): (r: string)
    ensures r == WithoutSpace(ws, s)
    decreases |s|
  {
    if s == [] then []
    else if ws(s[0]) then
      DropLeadingSpaceKeepsText(ws, s);
      ReplaceSpaceRuns(ws, DropLeadingSpace(ws, s))
    else [s[0]] + ReplaceSpaceRuns(ws, s[1..])
  }

  /**
   * `normalizeCode`: the code with every whitespace character removed and
   * the others kept in order; the result has no whitespace.
   */
  function NormalizeCode(ws: char -> bool, code: string): (r: string)
    ensures r == WithoutSpace(ws, code) && Spaceless(ws, r)
  {
    WithoutSpaceIsSpaceless(ws, code);
    TrimSpaceless(ws, ReplaceSpaceRuns(ws, code));
    Trim(ws, ReplaceSpaceRuns(ws, code))
  }

  /** trimStart drops a prefix made only of whitespace: its result is the rest of `s`. */
  lemma {:induction false} DropLeadingSpaceIsSuffix(ws: char -> bool, s: string)
    ensures var r := DropLeadingSpace(ws, s);
      && r == s[|s| - |r|..]
      && forall i :: 0 <= i < |s| - |r| ==> ws(s[i])
    decreases |s|
  {
    if s != [] && ws(s[0]) {
      DropLeadingSpaceIsSuffix(ws, s[1..]);
    }
  }

  /** trimEnd drops a suffix made only of whitespace. */
  lemma {:induction false} DropTrailingSpaceDropsSpace(ws: char -> bool, s: string)
    ensures var r := DropTrailingSpace(ws, s);
      forall i :: |r| <= i < |s| ==> ws(s[i])
    decreases |s|
  {
    if s != [] && ws(s[|s| - 1]) {
      var init := s[..|s| - 1];
      var r := DropTrailingSpace(ws, init);
      assert DropTrailingSpace(ws, s) == r;
      DropTrailingSpaceDropsSpace(ws, init);
      forall i | |r| <= i < |s|
        ensures ws(s[i])
      {
        if i < |init| {
          assert s[i] == init[i];
        }
      }
    }
  }

  /**
   * `trim` keeps one contiguous part of `s`, interior whitespace included,
   * and what it drops on either side is whitespace only.
   */
  lemma TrimIsInfix(ws: char -> bool, s: string)
    ensures exists i, j ::
      (0 <= i <= j <= |s| && Trim(ws, s) == s[i..j] &&
       (forall k :: 0 <= k < i ==> ws(s[k])) && (forall k :: j <= k < |s| ==> ws(s[k])))
  {
    var t := DropLeadingSpace(ws, s);
    DropLeadingSpaceIsSuffix(ws, s);
    DropTrailingSpaceDropsSpace(ws, t);
    var i := |s| - |t|;
    var j := i + |Trim(ws, s)|;
    assert Trim(ws, s) == s[i..j];
    assert forall k :: j <= k < |s| ==> s[k] == t[k - i];
  }

  /** Removing whitespace distributes over concatenation: it works character by character, in order. */
  lemma {:induction false} WithoutSpaceAppend(ws: char -> bool, a: string, b: string)
    ensures WithoutSpace(ws, a + b) == WithoutSpace(ws, a) + WithoutSpace(ws, b)
    decreases |a|
  {
    if a != [] {
      var head := if ws(a[0]) then [] else [a[0]];
      assert (a + b)[0] == a[0] && (a + b)[1..] == a[1..] + b;
      assert WithoutSpace(ws, a + b) == head + WithoutSpace(ws, a[1..] + b);
      WithoutSpaceAppend(ws, a[1..], b);
      assert WithoutSpace(ws, a) == head + WithoutSpace(ws, a[1..]);
    } else {
      assert a + b == b;
    }
  }

  /** The reference result has no whitespace. */
  lemma {:induction false} WithoutSpaceIsSpaceless(ws: char -> bool, s: string)
    ensures Spaceless(ws, WithoutSpace(ws, s))
    decreases |s|
  {
    if s != [] {
      WithoutSpaceIsSpaceless(ws, s[1..]);
    }
  }

  /** Removing whitespace from text that has none changes nothing. */
  lemma {:induction false} WithoutSpaceOfSpaceless(ws: char -> bool, s: string)
    requires Spaceless(ws, s)
    ensures WithoutSpace(ws, s) == s
    decreases |s|
  {
    if s != [] {
      WithoutSpaceOfSpaceless(ws, s[1..]);
    }
  }

  /** Skipping a whitespace run loses no other character. */
  lemma {:induction false} DropLeadingSpaceKeepsText(ws: char -> bool, s: string)
    ensures WithoutSpace(ws, DropLeadingSpace(ws, s)) == WithoutSpace(ws, s)
    decreases |s|
  {
    if s != [] && ws(s[0]) {
      DropLeadingSpaceKeepsText(ws, s[1..]);
    }
  }

  /** Trimming text that has no whitespace changes nothing. */
  lemma TrimSpaceless(ws: char -> bool, s: string)
    requires Spaceless(ws, s)
    ensures Trim(ws, s) == s
  {
  }

  /** Normalizing twice gives the same result as normalizing once. */
  lemma NormalizeCodeIdempotent(ws: char -> bool, code: string)
    ensures NormalizeCode(ws, NormalizeCode(ws, code)) == NormalizeCode(ws, code)
  {
    WithoutSpaceOfSpaceless(ws, NormalizeCode(ws, code));
  }

  /**
   * The solved check compares the normalized texts, so an edit is a
   * solution exactly when it has the solution's non-whitespace characters
   * in the same order.
   */
  lemma SolvedIffSameText(ws: char -> bool, code: string, solution: string)
    ensures NormalizeCode(ws, code) == NormalizeCode(ws, solution) <==>
            WithoutSpace(ws, code) == WithoutSpace(ws, solution)
  {
  }

  /** Inserting one whitespace character anywhere does not change the normalized text. */
  lemma InsertedSpaceIsIgnored(ws: char -> bool, before: string, c: char, after: string)
    requires ws(c)
    ensures NormalizeCode(ws, before + [c] + after) == NormalizeCode(ws, before + after)
  {
    WithoutSpaceAppend(ws, before + [c], after);
    WithoutSpaceAppend(ws, before, [c]);
    WithoutSpaceAppend(ws, before, after);
  }

  /** What the page sends to the server: socket.emit("code-change", {blockId, newCode}). */
  datatype ClientMessage = CodeChangeMessage(blockId: string, newCode: string)

  /**
   * The state of one code-block page that `handleCodeChange` reads and
   * writes: the editor text, the solution fetched for the block, whether
   * the smiley is shown, and whether the socket ref holds a socket.
   */
  class CodeBlockPage {
    const id: string
    const ws: char -> bool
    var code: string
    var solution: string
    var showSmiley: bool
    var hasSocket: bool

    /** A page for block `id` whose fetch delivered `solution`; the smiley starts hidden. */
    constructor (id: string, ws: char -> bool, solution: string, hasSocket: bool)
      ensures this.id == id && this.ws == ws && this.solution == solution && this.hasSocket == hasSocket
      ensures code == "" && !showSmiley
    {
      this.id := id;
      this.ws := ws;
      this.code := "";
      this.solution := solution;
      this.showSmiley := false;
      this.hasSocket := hasSocket;
    }

    /**
     * handleCodeChange: the editor text always becomes `newCode`. With a
     * socket, the edit is sent for this block and the smiley is shown
     * exactly when the edit matches the solution up to whitespace; without
     * one, nothing is sent and the smiley stays as it was.
     */
    method HandleCodeChange(newCode: string) returns (sent: Option<ClientMessage>)
      modifies this`code, this`showSmiley
      ensures code == newCode
      ensures hasSocket ==> sent == Some(CodeChangeMessage(id, newCode))
      ensures hasSocket ==> (showSmiley <==> WithoutSpace(ws, newCode) == WithoutSpace(ws, solution))
      ensures !hasSocket ==> sent == None && showSmiley == old(showSmiley)
    {
      code := newCode;
      sent := None;
      if hasSocket {
        sent := Some(CodeChangeMessage(id, newCode));
        SolvedIffSameText(ws, newCode, solution);
        if NormalizeCode(ws, newCode) == NormalizeCode(ws, solution) {
          showSmiley := true;
        } else {
          showSmiley := false;
        }
      }
    }
  }
}
