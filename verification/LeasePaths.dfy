/** Path containment of task leases: POSIX normalisation and the prefix test made on its result. */
module LeasePaths {
  /** Split at every slash; there is always at least one piece. */
  function Split(s: string): (pieces: seq<string>)
    ensures |pieces| >= 1
  {
    if s == "" then [""]
    else if s[0] == '/' then [""] + Split(s[1..])
    else
      var rest := Split(s[1..]);
      [[s[0]] + rest[0]] + rest[1..]
  }

  function Join(pieces: seq<string>): string {
    if |pieces| == 0 then ""
    else if |pieces| == 1 then pieces[0]
    else pieces[0] + "/" + Join(pieces[1..])
  }

  /** Drop empty and "." pieces and let ".." cancel the piece before it, where there is one. */
  function Resolve(pieces: seq<string>, absolute: bool, kept: seq<string>): seq<string> {
    if pieces == [] then kept
    else
      var piece := pieces[0];
      if piece == "" || piece == "." then Resolve(pieces[1..], absolute, kept)
      else if piece != ".." || (!absolute && kept == []) || (kept != [] && kept[|kept| - 1] == "..") then
        Resolve(pieces[1..], absolute, kept + [piece])
      else if kept != [] then Resolve(pieces[1..], absolute, kept[..|kept| - 1])
      else Resolve(pieces[1..], absolute, kept)
  }

  function Forward(s: string): string {
    seq(|s|, i requires 0 <= i < |s| => if s[i] == '\\' then '/' else s[i])
  }

  predicate StartsWith(s: string, prefix: string) {
    prefix <= s
  }

  /** POSIX keeps one leading slash, or exactly two. */
  function Slashes(path: string): nat {
    if !StartsWith(path, "/") then 0
    else if StartsWith(path, "//") && !StartsWith(path, "///") then 2
    else 1
  }

  function Lead(n: nat): string {
    if n == 0 then "" else if n == 1 then "/" else "//"
  }

  function NormPath(path: string): string {
    if path == "" then "."
    else
      var n := Slashes(path);
      var normal := Lead(n) + Join(Resolve(Split(path), n > 0, []));
      if normal == "" then "." else normal
  }

  function NormalizePath(value: string): string {
    var normalized := NormPath(Forward(value));
    if normalized == "" then "." else normalized
  }

  function RightTrim(s: string): string {
    if s != "" && s[|s| - 1] == '/' then RightTrim(s[..|s| - 1]) else s
  }

  predicate AcceptsNormal(candidate: string, prefix: string) {
    if prefix == "" || prefix == "." then
      !StartsWith(candidate, "/") && candidate != ".." && !StartsWith(candidate, "../")
    else
      candidate == prefix || StartsWith(candidate, RightTrim(prefix) + "/")
  }

  predicate PathAllowed(value: string, allowed: seq<string>) {
    exists i :: 0 <= i < |allowed| && AcceptsNormal(NormalizePath(value), NormalizePath(allowed[i]))
  }

  // ---------------------------------------------------------------------------------
  // What a path means: a root and a list of components
  // ---------------------------------------------------------------------------------

  function Root(value: string): nat {
    Slashes(Forward(value))
  }

  function Components(value: string): seq<string> {
    Resolve(Split(Forward(value)), Root(value) > 0, [])
  }

  predicate IsName(piece: string) {
    piece != "" && piece != "." && forall i :: 0 <= i < |piece| ==> piece[i] != '/'
  }

  /** ".." only at the front, and nowhere in an absolute path. */
  predicate IsNormal(pieces: seq<string>, absolute: bool) {
    && (forall i :: 0 <= i < |pieces| ==> IsName(pieces[i]))
    && (absolute ==> forall i :: 0 <= i < |pieces| ==> pieces[i] != "..")
    && (forall i, j :: 0 <= i < j < |pieces| && pieces[j] == ".." ==> pieces[i] == "..")
  }

  lemma {:induction false} SplitHasNoSlash(s: string)
    ensures forall i, k :: 0 <= i < |Split(s)| && 0 <= k < |Split(s)[i]| ==> Split(s)[i][k] != '/'
  {
    if s != "" { SplitHasNoSlash(s[1..]); }
  }

  lemma {:induction false} ResolveIsNormal(pieces: seq<string>, absolute: bool, kept: seq<string>)
    requires forall i, k :: 0 <= i < |pieces| && 0 <= k < |pieces[i]| ==> pieces[i][k] != '/'
    requires IsNormal(kept, absolute)
    ensures IsNormal(Resolve(pieces, absolute, kept), absolute)
  {
    if pieces != [] {
      var piece := pieces[0];
      if piece == "" || piece == "." {
        ResolveIsNormal(pieces[1..], absolute, kept);
      } else if piece != ".." || (!absolute && kept == []) || (kept != [] && kept[|kept| - 1] == "..") {
        assert IsName(piece);
        ResolveIsNormal(pieces[1..], absolute, kept + [piece]);
      } else if kept != [] {
        ResolveIsNormal(pieces[1..], absolute, kept[..|kept| - 1]);
      } else {
        ResolveIsNormal(pieces[1..], absolute, kept);
      }
    }
  }

  lemma ComponentsAreNormal(value: string)
    ensures IsNormal(Components(value), Root(value) > 0)
  {
    SplitHasNoSlash(Forward(value));
    ResolveIsNormal(Split(Forward(value)), Root(value) > 0, []);
  }

  // ---------------------------------------------------------------------------------
  // Strings against components
  // ---------------------------------------------------------------------------------

  predicate Named(pieces: seq<string>) {
    forall i :: 0 <= i < |pieces| ==> IsName(pieces[i])
  }

  lemma {:induction false} SplitName(name: string, rest: string)
    requires forall i :: 0 <= i < |name| ==> name[i] != '/'
    ensures Split(name + "/" + rest) == [name] + Split(rest)
    ensures Split(name) == [name]
  {
    if name == "" {
      assert name + "/" + rest == "/" + rest;
      assert ("/" + rest)[1..] == rest;
    } else {
      SplitName(name[1..], rest);
      assert (name + "/" + rest)[1..] == name[1..] + "/" + rest;
      assert [name[0]] + name[1..] == name;
    }
  }

  /** Splitting undoes joining. */
  lemma {:induction false} SplitJoin(pieces: seq<string>)
    requires Named(pieces) && pieces != []
    ensures Split(Join(pieces)) == pieces
  {
    SplitName(pieces[0], "");
    if |pieces| > 1 {
      SplitJoin(pieces[1..]);
      SplitName(pieces[0], Join(pieces[1..]));
    }
  }

  lemma {:induction false} SplitJoinMore(pieces: seq<string>, rest: string)
    requires Named(pieces) && pieces != []
    ensures Split(Join(pieces) + "/" + rest) == pieces + Split(rest)
  {
    if |pieces| == 1 {
      SplitName(pieces[0], rest);
    } else {
      var tail := Join(pieces[1..]) + "/" + rest;
      SplitJoinMore(pieces[1..], rest);
      SplitName(pieces[0], tail);
      assert Join(pieces) + "/" + rest == pieces[0] + "/" + tail;
    }
  }

  lemma {:induction false} JoinAppend(a: seq<string>, b: seq<string>)
    requires a != [] && b != []
    ensures Join(a + b) == Join(a) + "/" + Join(b)
  {
    if |a| == 1 {
      assert (a + b)[1..] == b;
    } else {
      JoinAppend(a[1..], b);
      assert (a + b)[1..] == a[1..] + b;
    }
  }

  lemma {:induction false} JoinEnds(pieces: seq<string>)
    requires Named(pieces) && pieces != []
    ensures Join(pieces) != "" && Join(pieces)[0] == pieces[0][0] != '/'
    ensures Join(pieces)[|Join(pieces)| - 1] != '/'
  {
    if |pieces| > 1 { JoinEnds(pieces[1..]); }
  }

  /** A joined path starts with another and a slash exactly when it has its components and more. */
  lemma JoinPrefix(a: seq<string>, c: seq<string>)
    requires Named(a) && Named(c) && a != [] && c != []
    ensures Join(c) == Join(a) || StartsWith(Join(c), Join(a) + "/") <==> a <= c
  {
    if Join(c) == Join(a) {
      SplitJoin(a);
      SplitJoin(c);
    } else if StartsWith(Join(c), Join(a) + "/") {
      var rest := Join(c)[|Join(a)| + 1..];
      assert Join(c) == Join(a) + "/" + rest;
      SplitJoinMore(a, rest);
      SplitJoin(c);
    }
    if a <= c && a != c {
      assert c == a + c[|a|..];
      JoinAppend(a, c[|a|..]);
    }
  }

  lemma NormalizedText(value: string)
    ensures var c, n := Components(value), Root(value);
      NormalizePath(value) == if n == 0 && c == [] then "." else Lead(n) + Join(c)
  {
    ComponentsAreNormal(value);
    if Forward(value) == "" {
      assert Split("") == [""];
    }
    if Components(value) != [] {
      JoinEnds(Components(value));
    }
  }

  /** Trimming only ever touches a bare root. */
  lemma TrimmedText(n: nat, c: seq<string>)
    requires Named(c) && n <= 2
    ensures RightTrim(Lead(n) + Join(c)) == if c == [] then "" else Lead(n) + Join(c)
  {
    if c != [] {
      JoinEnds(c);
    } else {
      assert Lead(n) + Join(c) == Lead(n);
      assert "//"[..1] == "/" && "/"[..0] == "";
      assert RightTrim("/") == "";
    }
  }

  /** The leading strings are told apart by where the first other character stands. */
  lemma LeadStands(m: nat, n: nat, c: string, y: string)
    requires n <= 2 && m <= 2 && |y| > n && y[..n] == Lead(n) && y[n] != '/' && (c == "" || c[0] != '/')
    requires StartsWith(Lead(m) + c, y)
    ensures m == n && StartsWith(c, y[n..])
  {
    var x := Lead(m) + c;
    assert forall i :: 0 <= i < |y| ==> x[i] == y[i];
    assert forall i :: 0 <= i < n ==> y[i] == y[..n][i] == '/';
    assert m < |x| ==> x[m] == c[0];
    assert c == x[m..];
  }

  /** The two leading strings are the same and can be cut off together. */
  lemma LeadAgrees(n: nat, m: nat, a: string, c: string)
    requires n <= 2 && m <= 2
    requires a != "" && a[0] != '/' && (c == "" || c[0] != '/')
    ensures Lead(m) + c == Lead(n) + a <==> m == n && c == a
    ensures StartsWith(Lead(m) + c, Lead(n) + a + "/") <==> m == n && StartsWith(c, a + "/")
  {
    var x, y := Lead(m) + c, Lead(n) + a + "/";
    if StartsWith(x, y) {
      LeadStands(m, n, c, y);
      assert y[n..] == a + "/";
    }
    if m == n && StartsWith(c, a + "/") {
      assert x == y + c[|a| + 1..];
    }
    if x == Lead(n) + a {
      LeadStands(m, n, c, x);
      assert x[n..] == a && x[m..] == c;
    }
  }

  /**
    The string test decides containment of components, exactly: a relative root prefix accepts
    the relative paths that do not start with "..", an absolute root every absolute path, and
    any other prefix the paths with the same root whose components extend its own.
   */
  lemma AcceptsExactly(value: string, allowed: string)
    ensures AcceptsNormal(NormalizePath(value), NormalizePath(allowed)) <==>
      var c, a := Components(value), Components(allowed);
      if a == [] then
        if Root(allowed) == 0 then Root(value) == 0 && (c == [] || c[0] != "..") else Root(value) > 0
      else Root(value) == Root(allowed) && a <= c
  {
    var c, a := Components(value), Components(allowed);
    if a != [] {
      ExtendsExactly(value, allowed);
    } else {
      NormalizedText(value);
      NormalizedText(allowed);
      ComponentsAreNormal(value);
      TrimmedText(Root(allowed), a);
      if c != [] { JoinEnds(c); }
      if Root(allowed) == 0 {
        RelativeRootAccepts(value);
      }
    }
  }

  /** The same for a prefix with components of its own. */
  lemma ExtendsExactly(value: string, allowed: string)
    requires Components(allowed) != []
    ensures AcceptsNormal(NormalizePath(value), NormalizePath(allowed)) <==>
      Root(value) == Root(allowed) && Components(allowed) <= Components(value)
  {
    NormalizedText(value);
    NormalizedText(allowed);
    ComponentsAreNormal(value);
    ComponentsAreNormal(allowed);
    var c, a := Components(value), Components(allowed);
    TrimmedText(Root(allowed), a);
    JoinEnds(a);
    if c == [] {
      assert Join(c) == "";
      if Root(value) == 0 {
        EmptyNeverExtends(a, Root(allowed));
      } else {
        LeadAgrees(Root(allowed), Root(value), Join(a), "");
      }
    } else {
      JoinEnds(c);
      LeadAgrees(Root(allowed), Root(value), Join(a), Join(c));
      JoinPrefix(a, c);
    }
  }

  lemma EmptyNeverExtends(a: seq<string>, n: nat)
    requires Named(a) && a != []
    ensures Lead(n) + Join(a) != "." && !StartsWith(".", Lead(n) + Join(a) + "/")
  {
    JoinEnds(a);
  }

  lemma RelativeRootAccepts(value: string)
    ensures AcceptsNormal(NormalizePath(value), ".") <==>
              Root(value) == 0 && (Components(value) == [] || Components(value)[0] != "..")
  {
    NormalizedText(value);
    ComponentsAreNormal(value);
    var c := Components(value);
    if c != [] {
      JoinEnds(c);
      var up := [".."];
      assert Named(up) && Join(up) == "..";
      JoinPrefix(up, c);
      assert up <= c <==> c[0] == "..";
      assert ".." + "/" == "../";
    }
  }

  // ---------------------------------------------------------------------------------
  // Containment and climbing
  // ---------------------------------------------------------------------------------

  /**
    Containment: a path accepted through a prefix that does not itself start with ".." stays
    under it: its components extend the prefix's and none of them is "..".
   */
  lemma Contained(value: string, allowed: string)
    requires AcceptsNormal(NormalizePath(value), NormalizePath(allowed))
    requires Components(allowed) == [] || Components(allowed)[0] != ".."
    ensures Components(allowed) <= Components(value)
    ensures ".." !in Components(value)
    ensures Root(value) > 0 <==> Root(allowed) > 0
  {
    AcceptsExactly(value, allowed);
    ComponentsAreNormal(value);
  }

  /** Walk the pieces of a path: does it ever leave the directory it started in? */
  predicate Climbs(pieces: seq<string>, depth: nat) {
    pieces != [] &&
    if pieces[0] == "" || pieces[0] == "." then Climbs(pieces[1..], depth)
    else if pieces[0] == ".." then depth == 0 || Climbs(pieces[1..], depth - 1)
    else Climbs(pieces[1..], depth + 1)
  }

  lemma {:induction false} ResolveKeepsFront(pieces: seq<string>, kept: seq<string>)
    requires kept != [] && kept[0] == ".."
    requires forall i, j :: 0 <= i < j < |kept| && kept[j] == ".." ==> kept[i] == ".."
    ensures Resolve(pieces, false, kept) != [] && Resolve(pieces, false, kept)[0] == ".."
  {
    if pieces != [] {
      var piece := pieces[0];
      if piece == "" || piece == "." {
        ResolveKeepsFront(pieces[1..], kept);
      } else if piece != ".." || kept[|kept| - 1] == ".." {
        ResolveKeepsFront(pieces[1..], kept + [piece]);
      } else {
        ResolveKeepsFront(pieces[1..], kept[..|kept| - 1]);
      }
    }
  }

  lemma {:induction false} ResolveClimbs(pieces: seq<string>, kept: seq<string>)
    requires forall i :: 0 <= i < |kept| ==> kept[i] != ".."
    ensures Climbs(pieces, |kept|) <==>
              Resolve(pieces, false, kept) != [] && Resolve(pieces, false, kept)[0] == ".."
  {
    if pieces != [] {
      var piece := pieces[0];
      if piece == "" || piece == "." {
        ResolveClimbs(pieces[1..], kept);
      } else if piece == ".." {
        if kept == [] {
          assert kept + [piece] == [piece];
          ResolveKeepsFront(pieces[1..], [piece]);
        } else {
          ResolveClimbs(pieces[1..], kept[..|kept| - 1]);
        }
      } else {
        ResolveClimbs(pieces[1..], kept + [piece]);
      }
    }
  }

  lemma DotIsNormal()
    ensures NormalizePath(".") == "."
  {
    var dot := ".";
    assert Forward(dot) == dot;
    assert dot[1..] == "" && Split("") == [""];
    var pieces: seq<string> := [dot];
    assert Split(dot) == [[dot[0]] + Split(dot[1..])[0]] + Split(dot[1..])[1..];
    assert [dot[0]] + "" == dot;
    assert Split(dot) == pieces;
    assert pieces[1..] == [];
    assert Resolve(pieces, false, []) == Resolve(pieces[1..], false, []) == [];
    assert Lead(Slashes(dot)) + Join(Resolve(pieces, false, [])) == "";
  }

  /** The prefix "." accepts exactly the relative paths that never climb above where they start. */
  lemma DotAcceptsWhatDoesNotClimb(value: string)
    ensures PathAllowed(value, ["."]) <==>
              !StartsWith(Forward(value), "/") && !Climbs(Split(Forward(value)), 0)
  {
    RelativeRootAccepts(value);
    DotIsNormal();
    ResolveClimbs(Split(Forward(value)), []);
    assert ["."][0] == ".";
  }
}
