/** Member and upstream names as the registry stores them. */
module MemberNames {
  predicate SafeChar(c: char) {
    'A' <= c <= 'Z' || 'a' <= c <= 'z' || '0' <= c <= '9' || c == '_' || c == '.' || c == '-'
  }

  /** Every maximal run of other characters becomes one dash; `inRun` says one was just written. */
  function Collapse(s: string, inRun: bool): string {
    if s == "" then ""
    else if SafeChar(s[0]) then [s[0]] + Collapse(s[1..], false)
    else (if inRun then "" else "-") + Collapse(s[1..], true)
  }

  function StripLeft(s: string): string {
    if s != "" && s[0] == '-' then StripLeft(s[1..]) else s
  }

  function StripRight(s: string): string {
    if s != "" && s[|s| - 1] == '-' then StripRight(s[..|s| - 1]) else s
  }

  function SafeName(value: string): string {
    var stripped := StripRight(StripLeft(Collapse(value, false)));
    if stripped == "" then "member" else stripped
  }

  /** What a stored name looks like. */
  predicate IsSafeName(s: string) {
    s != "" && s[0] != '-' && s[|s| - 1] != '-' && forall i :: 0 <= i < |s| ==> SafeChar(s[i])
  }

  lemma {:induction false} CollapseIsSafe(s: string, inRun: bool)
    ensures forall i :: 0 <= i < |Collapse(s, inRun)| ==> SafeChar(Collapse(s, inRun)[i])
  {
    if s != "" {
      CollapseIsSafe(s[1..], !SafeChar(s[0]));
    }
  }

  lemma {:induction false} StripLeftOf(s: string)
    ensures |StripLeft(s)| <= |s| && StripLeft(s) == s[|s| - |StripLeft(s)|..]
    ensures StripLeft(s) != "" ==> StripLeft(s)[0] != '-'
  {
    if s != "" && s[0] == '-' { StripLeftOf(s[1..]); }
  }

  lemma {:induction false} StripRightOf(s: string)
    ensures |StripRight(s)| <= |s| && StripRight(s) == s[..|StripRight(s)|]
    ensures StripRight(s) != "" ==> StripRight(s)[|StripRight(s)| - 1] != '-'
  {
    if s != "" && s[|s| - 1] == '-' { StripRightOf(s[..|s| - 1]); }
  }

  lemma {:induction false} CollapseKeepsSafe(s: string, inRun: bool)
    requires forall i :: 0 <= i < |s| ==> SafeChar(s[i])
    ensures Collapse(s, inRun) == s
  {
    if s != "" { CollapseKeepsSafe(s[1..], false); }
  }

  /** Every name is made safe, and exactly the safe names are left as they are. */
  lemma SafeNameFixes(value: string)
    ensures IsSafeName(SafeName(value))
    ensures SafeName(value) == value <==> IsSafeName(value)
  {
    var c := Collapse(value, false);
    CollapseIsSafe(value, false);
    StripLeftOf(c);
    StripRightOf(StripLeft(c));
    if IsSafeName(value) {
      CollapseKeepsSafe(value, false);
    }
  }

  // ---------------------------------------------------------------------------------
  // Which safe name
  // ---------------------------------------------------------------------------------

  predicate AllSafe(s: string) {
    forall i :: 0 <= i < |s| ==> SafeChar(s[i])
  }

  predicate NoneSafe(s: string) {
    forall i :: 0 <= i < |s| ==> !SafeChar(s[i])
  }

  predicate AllDashes(s: string) {
    forall i :: 0 <= i < |s| ==> s[i] == '-'
  }

  /** Nothing in it outlives the stripping. */
  predicate Edge(s: string) {
    forall i :: 0 <= i < |s| ==> s[i] == '-' || !SafeChar(s[i])
  }

  /** Words of safe characters, and runs without one between them. */
  predicate Spelled(words: seq<string>, runs: seq<string>) {
    && |words| == |runs| + 1
    && (forall i :: 0 <= i < |words| ==> words[i] != "" && AllSafe(words[i]))
    && (forall i :: 0 <= i < |runs| ==> runs[i] != "" && NoneSafe(runs[i]))
  }

  function Spell(words: seq<string>, runs: seq<string>): string
    requires |words| == |runs| + 1
  {
    if runs == [] then words[0] else words[0] + runs[0] + Spell(words[1..], runs[1..])
  }

  function Dashed(words: seq<string>): string
    requires words != []
  {
    if |words| == 1 then words[0] else words[0] + "-" + Dashed(words[1..])
  }

  lemma {:induction false} CollapseWord(word: string, rest: string, inRun: bool)
    requires AllSafe(word) && word != ""
    ensures Collapse(word + rest, inRun) == word + Collapse(rest, false)
  {
    assert (word + rest)[1..] == word[1..] + rest;
    if |word| == 1 {
      assert word[1..] + rest == rest;
    } else {
      CollapseWord(word[1..], rest, false);
    }
  }

  lemma {:induction false} CollapseRun(run: string, rest: string, inRun: bool)
    requires NoneSafe(run) && run != ""
    ensures Collapse(run + rest, inRun) == (if inRun then "" else "-") + Collapse(rest, true)
  {
    assert (run + rest)[1..] == run[1..] + rest;
    if |run| == 1 {
      assert run[1..] + rest == rest;
    } else {
      CollapseRun(run[1..], rest, true);
    }
  }

  lemma {:induction false} CollapseSpelled(words: seq<string>, runs: seq<string>, rest: string, inRun: bool)
    requires Spelled(words, runs)
    ensures Collapse(Spell(words, runs) + rest, inRun) == Dashed(words) + Collapse(rest, false)
  {
    if runs == [] {
      CollapseWord(words[0], rest, inRun);
    } else {
      var tail := Spell(words[1..], runs[1..]) + rest;
      CollapseSpelled(words[1..], runs[1..], rest, true);
      CollapseRun(runs[0], tail, false);
      CollapseWord(words[0], runs[0] + tail, inRun);
      assert Spell(words, runs) + rest == words[0] + (runs[0] + tail);
    }
  }

  lemma {:induction false} CollapseEdge(edge: string, rest: string, inRun: bool) returns (dashes: string, b: bool)
    requires Edge(edge)
    ensures AllDashes(dashes) && Collapse(edge + rest, inRun) == dashes + Collapse(rest, b)
  {
    if edge == "" {
      assert edge + rest == rest;
      dashes, b := "", inRun;
    } else {
      var more;
      more, b := CollapseEdge(edge[1..], rest, edge[0] != '-');
      assert (edge + rest)[1..] == edge[1..] + rest;
      dashes := (if edge[0] == '-' || !inRun then "-" else "") + more;
    }
  }

  lemma {:induction false} StripLeftDashes(dashes: string, rest: string)
    requires AllDashes(dashes) && (rest == "" || rest[0] != '-')
    ensures StripLeft(dashes + rest) == rest
  {
    if dashes == "" {
      assert dashes + rest == rest;
    } else {
      assert (dashes + rest)[1..] == dashes[1..] + rest;
      StripLeftDashes(dashes[1..], rest);
    }
  }

  lemma {:induction false} StripRightDashes(rest: string, dashes: string)
    requires AllDashes(dashes) && (rest == "" || rest[|rest| - 1] != '-')
    ensures StripRight(rest + dashes) == rest
  {
    if dashes == "" {
      assert rest + dashes == rest;
    } else {
      var n := |dashes| - 1;
      assert (rest + dashes)[..|rest| + n] == rest + dashes[..n];
      StripRightDashes(rest, dashes[..n]);
    }
  }

  lemma {:induction false} DashedEnds(words: seq<string>)
    requires words != [] && forall i :: 0 <= i < |words| ==> words[i] != ""
    ensures Dashed(words) != "" && Dashed(words)[0] == words[0][0]
    ensures var last := words[|words| - 1]; Dashed(words)[|Dashed(words)| - 1] == last[|last| - 1]
  {
    if |words| > 1 { DashedEnds(words[1..]); }
  }

  /**
    The safe name of any value: its words joined by single dashes, without what surrounds them;
    a value without a word is called "member".
   */
  lemma SafeNameJoins(lead: string, words: seq<string>, runs: seq<string>, trail: string)
    requires Edge(lead) && Edge(trail)
    requires Spelled(words, runs) && words[0][0] != '-' && words[|words| - 1][|words[|words| - 1]| - 1] != '-'
    ensures SafeName(lead + Spell(words, runs) + trail) == Dashed(words)
    ensures SafeName(lead) == "member"
  {
    var whole := Spell(words, runs) + trail;
    var left, b := CollapseEdge(lead, whole, false);
    CollapseSpelled(words, runs, trail, b);
    var right, _ := CollapseEdge(trail, "", false);
    assert trail + "" == trail && right + "" == right;
    DashedEnds(words);
    assert lead + Spell(words, runs) + trail == lead + whole;
    StripLeftDashes(left, Dashed(words) + right);
    StripRightDashes(Dashed(words), right);
    EdgeIsMember(lead);
  }

  lemma EdgeIsMember(edge: string)
    requires Edge(edge)
    ensures SafeName(edge) == "member"
  {
    var dashes, b := CollapseEdge(edge, "", false);
    assert edge + "" == edge && dashes + Collapse("", b) == dashes + "";
    StripLeftDashes(dashes, "");
    StripRightDashes("", "");
  }
}
