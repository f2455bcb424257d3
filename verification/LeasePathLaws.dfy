/**
  What decides the components of a path: how it falls into pieces, and four laws of rewriting
  that lead from any list of pieces to the one normal list it stands for.
 */
module LeasePathLaws {
  import opened LeasePaths

  // ---------------------------------------------------------------------------------
  // Pieces
  // ---------------------------------------------------------------------------------

  /** A backslash separates like a slash. */
  predicate IsSeparator(c: char) {
    c == '/' || c == '\\'
  }

  function Pieces(value: string): seq<string> {
    Split(Forward(value))
  }

  function Prepended(c: char, pieces: seq<string>): seq<string>
    requires pieces != []
  {
    if c == '/' then [""] + pieces else [[c] + pieces[0]] + pieces[1..]
  }

  lemma SplitCons(c: char, s: string)
    ensures Split([c] + s) == Prepended(c, Split(s))
  {
    assert ([c] + s)[1..] == s;
  }

  lemma PrependedAppend(c: char, a: seq<string>, b: seq<string>)
    requires a != []
    ensures Prepended(c, a + b) == Prepended(c, a) + b
  {
    assert (a + b)[1..] == a[1..] + b;
  }

  lemma {:induction false} SplitAppend(x: string, y: string)
    ensures Split(x + "/" + y) == Split(x) + Split(y)
  {
    if x == "" {
      assert x + "/" + y == ['/'] + y;
      SplitCons('/', y);
    } else {
      var tail := x[1..];
      SplitAppend(tail, y);
      assert x + "/" + y == [x[0]] + (tail + "/" + y) && x == [x[0]] + tail;
      SplitCons(x[0], tail);
      SplitCons(x[0], tail + "/" + y);
      PrependedAppend(x[0], Split(tail), Split(y));
    }
  }

  /** The pieces of a path are what its separators leave between them. */
  lemma PiecesAreBetweenSeparators(x: string, separator: char, y: string, name: string)
    requires IsSeparator(separator)
    ensures Pieces(x + [separator] + y) == Pieces(x) + Pieces(y)
    ensures (forall i :: 0 <= i < |name| ==> !IsSeparator(name[i])) ==> Pieces(name) == [name]
  {
    assert Forward(x + [separator] + y) == Forward(x) + "/" + Forward(y);
    SplitAppend(Forward(x), Forward(y));
    if forall i :: 0 <= i < |name| ==> !IsSeparator(name[i]) {
      assert Forward(name) == name;
      SplitName(name, "");
    }
  }

  /** A path is rooted by the separators it starts with: exactly two stand for themselves, any other number for one. */
  lemma RootCounts(value: string)
    ensures var n := |value|;
      Root(value) ==
        if n == 0 || !IsSeparator(value[0]) then 0
        else if n >= 2 && IsSeparator(value[1]) && (n == 2 || !IsSeparator(value[2])) then 2
        else 1
  {
    var s := Forward(value);
    assert StartsWith(s, "/") <==> |s| >= 1 && s[0] == '/';
    assert StartsWith(s, "//") <==> |s| >= 2 && s[0] == '/' == s[1] by { assert |s| >= 2 ==> s[..2] == [s[0], s[1]]; }
    assert StartsWith(s, "///") <==> |s| >= 3 && s[0] == '/' == s[1] && s[2] == '/' by { assert |s| >= 3 ==> s[..3] == [s[0], s[1], s[2]]; }
  }

  // ---------------------------------------------------------------------------------
  // Rewriting
  // ---------------------------------------------------------------------------------

  lemma {:induction false} ResolveAppend(a: seq<string>, b: seq<string>, absolute: bool, kept: seq<string>)
    ensures Resolve(a + b, absolute, kept) == Resolve(b, absolute, Resolve(a, absolute, kept))
  {
    if a == [] {
      assert a + b == b;
    } else {
      assert (a + b)[0] == a[0] && (a + b)[1..] == a[1..] + b;
      var piece := a[0];
      if piece == "" || piece == "." {
        ResolveAppend(a[1..], b, absolute, kept);
      } else if piece != ".." || (!absolute && kept == []) || (kept != [] && kept[|kept| - 1] == "..") {
        ResolveAppend(a[1..], b, absolute, kept + [piece]);
      } else if kept != [] {
        ResolveAppend(a[1..], b, absolute, kept[..|kept| - 1]);
      } else {
        ResolveAppend(a[1..], b, absolute, kept);
      }
    }
  }

  lemma {:induction false} NormalStays(pieces: seq<string>, absolute: bool, kept: seq<string>)
    requires IsNormal(kept + pieces, absolute)
    ensures Resolve(pieces, absolute, kept) == kept + pieces
  {
    if pieces == [] {
      assert kept + pieces == kept;
    } else {
      var all := kept + pieces;
      assert IsName(all[|kept|]) && all[|kept|] == pieces[0];
      assert kept != [] ==> all[|kept| - 1] == kept[|kept| - 1];
      assert kept + [pieces[0]] + pieces[1..] == all;
      NormalStays(pieces[1..], absolute, kept + [pieces[0]]);
    }
  }

  lemma PlainCancels(name: string, absolute: bool, kept: seq<string>)
    requires IsName(name) && name != ".."
    ensures Resolve([name, ".."], absolute, kept) == kept
  {
    assert Resolve([name, ".."], absolute, kept) == Resolve([name, ".."][1..], absolute, kept + [name]);
    assert [name, ".."][1..] == [".."] && (kept + [name])[..|kept|] == kept;
    assert Resolve([".."], absolute, kept + [name]) == Resolve([".."][1..], absolute, kept);
  }

  /**
    Empty pieces and dots count for nothing, a name is cancelled by the ".." after it, a ".." at
    an absolute root counts for nothing, and a list to which none of this applies stays as it is.
   */
  lemma ResolvesByRewriting(front: seq<string>, name: string, back: seq<string>, absolute: bool)
    requires IsName(name) && name != ".."
    ensures Resolve(front + [""] + back, absolute, []) == Resolve(front + back, absolute, [])
    ensures Resolve(front + ["."] + back, absolute, []) == Resolve(front + back, absolute, [])
    ensures Resolve(front + [name, ".."] + back, absolute, []) == Resolve(front + back, absolute, [])
    ensures absolute ==> Resolve([".."] + back, absolute, []) == Resolve(back, absolute, [])
    ensures IsNormal(front, absolute) ==> Resolve(front, absolute, []) == front
  {
    Inserted(front, [""], back, absolute);
    Inserted(front, ["."], back, absolute);
    PlainCancels(name, absolute, Resolve(front, absolute, []));
    Inserted(front, [name, ".."], back, absolute);
    assert ([".."] + back)[1..] == back;
    assert [] + front == front;
    if IsNormal(front, absolute) { NormalStays(front, absolute, []); }
  }

  lemma Inserted(front: seq<string>, more: seq<string>, back: seq<string>, absolute: bool)
    requires more == [""] || more == ["."] || Resolve(more, absolute, Resolve(front, absolute, [])) == Resolve(front, absolute, [])
    ensures Resolve(front + more + back, absolute, []) == Resolve(front + back, absolute, [])
  {
    ResolveAppend(front, back, absolute, []);
    ResolveAppend(front + more, back, absolute, []);
    ResolveAppend(front, more, absolute, []);
    assert more == [""] || more == ["."] ==> more[1..] == [];
  }

  /** So a detour through a plain name, a dot or a doubled separator inside a path never changes what it stands for. */
  lemma DetoursAreInvisible(x: string, name: string, y: string)
    requires x != "" && IsName(name) && name != ".." && forall i :: 0 <= i < |name| ==> !IsSeparator(name[i])
    ensures Components(x + "/" + name + "/../" + y) == Components(x + "/" + y)
    ensures Components(x + "/./" + y) == Components(x + "/" + y)
    ensures Components(x + "//" + y) == Components(x + "/" + y)
  {
    var absolute := Root(x + "/" + y) > 0;
    RootCounts(x + "/" + y);
    PiecesAreBetweenSeparators(x, '/', y, name);
    ResolvesByRewriting(Pieces(x), name, Pieces(y), absolute);
    Detour(x, name, y, absolute);
    Dotted(x, y, absolute);
    Doubled(x, y, absolute);
  }

  lemma Detour(x: string, name: string, y: string, absolute: bool)
    requires x != "" && (absolute <==> IsSeparator(x[0])) && forall i :: 0 <= i < |name| ==> !IsSeparator(name[i])
    ensures Components(x + "/" + name + "/../" + y) == Resolve(Pieces(x) + [name, ".."] + Pieces(y), absolute, [])
  {
    var tail := name + "/../" + y;
    RootCounts(x + "/" + tail);
    assert x + "/" + name + "/../" + y == x + "/" + tail;
    PiecesAreBetweenSeparators(x, '/', tail, name);
    assert tail == name + "/" + ("../" + y) && "../" + y == ".." + "/" + y;
    PiecesAreBetweenSeparators(name, '/', "../" + y, "..");
    PiecesAreBetweenSeparators("..", '/', y, "..");
    assert [name] + ([".."] + Pieces(y)) == [name, ".."] + Pieces(y);
    assert Pieces(x) + ([name, ".."] + Pieces(y)) == Pieces(x) + [name, ".."] + Pieces(y);
  }

  lemma Dotted(x: string, y: string, absolute: bool)
    requires x != "" && (absolute <==> IsSeparator(x[0]))
    ensures Components(x + "/./" + y) == Resolve(Pieces(x) + ["."] + Pieces(y), absolute, [])
  {
    RootCounts(x + "/./" + y);
    assert x + "/./" + y == x + "/" + ("./" + y) && "./" + y == "." + "/" + y;
    PiecesAreBetweenSeparators(x, '/', "./" + y, ".");
    PiecesAreBetweenSeparators(".", '/', y, ".");
    assert Pieces(x) + (["."] + Pieces(y)) == Pieces(x) + ["."] + Pieces(y);
  }

  lemma Doubled(x: string, y: string, absolute: bool)
    requires x != "" && (absolute <==> IsSeparator(x[0]))
    ensures Components(x + "//" + y) == Resolve(Pieces(x) + [""] + Pieces(y), absolute, [])
  {
    RootCounts(x + "//" + y);
    assert x + "//" + y == x + "/" + ("/" + y) && "/" + y == "" + "/" + y;
    PiecesAreBetweenSeparators(x, '/', "/" + y, "");
    PiecesAreBetweenSeparators("", '/', y, "");
    assert Pieces(x) + ([""] + Pieces(y)) == Pieces(x) + [""] + Pieces(y);
  }
}
