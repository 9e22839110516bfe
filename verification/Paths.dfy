/** Absolute slash-separated paths and their cleaning, component by component. */
module Paths {
  import opened Text

  predicate IsAbs(p: string) {
    p != "" && p[0] == '/'
  }

  /** A component that names something. */
  predicate Plain(c: string) {
    c != "" && c != "." && c != ".."
  }

  /** The place an absolute path leads to: empty and `.` components stay put, `..` goes up unless at the root. */
  function Resolve(components: seq<string>): seq<string> {
    if components == [] then []
    else
      var n := |components| - 1;
      var place := Resolve(components[..n]);
      if Plain(components[n]) then place + [components[n]]
      else if components[n] == ".." && place != [] then place[..|place| - 1]
      else place
  }

  /** Empty and `.` components stay put, a name is entered, `..` leaves it again, and goes nowhere from the root. */
  lemma ResolveLaws(components: seq<string>, c: string)
    ensures Resolve([]) == []
    ensures Resolve(components + [""]) == Resolve(components) == Resolve(components + ["."])
    ensures c != "" && c != "." && c != ".." ==> Resolve(components + [c]) == Resolve(components) + [c]
    ensures Resolve(components + [".."]) == if Resolve(components) == [] then [] else Resolve(components)[..|Resolve(components)| - 1]
  {
    assert (components + [""])[..|components|] == components && (components + ["."])[..|components|] == components;
    assert (components + [c])[..|components|] == components && (components + [".."])[..|components|] == components;
  }

  function Place(p: string): seq<string>
    requires IsAbs(p)
  {
    Resolve(Split(p[1..], '/'))
  }

  /** The shortest absolute path to the same place. */
  function Clean(p: string): string
    requires IsAbs(p)
  {
    if Place(p) == [] then "/" else "/" + Join(Place(p), '/')
  }

  /** The root, or plain components with single slashes between them and none at the end. */
  ghost predicate Normal(p: string) {
    p == "/" || (IsAbs(p) && forall c :: c in Split(p[1..], '/') ==> Plain(c))
  }

  lemma {:induction false} ResolveIsPlain(components: seq<string>)
    requires Apart(components, '/')
    ensures Apart(Resolve(components), '/') && forall c :: c in Resolve(components) ==> Plain(c)
  {
    if components != [] { ResolveIsPlain(components[..|components| - 1]); }
  }

  lemma {:induction false} ResolvePlain(components: seq<string>)
    requires forall c :: c in components ==> Plain(c)
    ensures Resolve(components) == components
  {
    if components != [] {
      var n := |components| - 1;
      ResolvePlain(components[..n]);
      assert components == components[..n] + [components[n]];
    }
  }

  /** The cleaned path is in normal form and leads to the same place. */
  lemma CleanIsNormal(p: string)
    requires IsAbs(p)
    ensures Normal(Clean(p)) && Place(Clean(p)) == Place(p)
  {
    SplitThenJoin(p[1..], '/');
    ResolveIsPlain(Split(p[1..], '/'));
    if Place(p) == [] {
      assert "/"[1..] == "" && Split("", '/') == [""];
      assert Resolve([""]) == Resolve([]);
    } else {
      JoinThenSplit(Place(p), '/');
      assert Clean(p)[1..] == Join(Place(p), '/');
      ResolvePlain(Place(p));
    }
  }

  /** A path is unchanged by cleaning exactly when it is in normal form. */
  lemma CleanFixesIffNormal(p: string)
    requires IsAbs(p)
    ensures Clean(p) == p <==> Normal(p)
  {
    CleanIsNormal(p);
    if Normal(p) {
      if p == "/" {
        assert "/"[1..] == "" && Split("", '/') == [""];
        assert Resolve([""]) == Resolve([]);
      } else {
        ResolvePlain(Split(p[1..], '/'));
        SplitThenJoin(p[1..], '/');
        assert "/" + p[1..] == p;
      }
    }
  }

  /** Two paths lead to the same place exactly when they clean to the same path. */
  lemma SamePlaceIffSameClean(p: string, q: string)
    requires IsAbs(p) && IsAbs(q)
    ensures Place(p) == Place(q) <==> Clean(p) == Clean(q)
  {
    CleanIsNormal(p);
    CleanIsNormal(q);
  }
}
