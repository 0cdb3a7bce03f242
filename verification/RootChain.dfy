/** Root planning of packages/storage/native-probe/src/root-chain.cc on POSIX: an absolute path is
    split into the components that are opened one by one. */
module RootChain {
  import opened Options

  const MAX_COMPONENTS: nat := 0xffff_ffff

  predicate Free(s: string, c: char) { forall i | 0 <= i < |s| :: s[i] != c }

  predicate NameOk(c: string) { c != "" && c != "." && c != ".." }

  /** One directory name that leads down: no separator, no NUL, not empty, neither `.` nor `..`. */
  predicate ComponentOk(c: string) {
    NameOk(c) && Free(c, '/') && Free(c, '\0')
  }

  predicate AllOk(cs: seq<string>) { forall i | 0 <= i < |cs| :: ComponentOk(cs[i]) }

  /** Every component followed by a slash. */
  function Slashed(cs: seq<string>): string {
    if cs == [] then "" else cs[0] + "/" + Slashed(cs[1..])
  }

  /** The path of a list of components; only the anchor has no choice about a trailing slash. */
  function PathOf(cs: seq<string>, trailing: bool): string {
    var body := Slashed(cs);
    "/" + if trailing || cs == [] then body else body[..|body| - 1]
  }

  /** Position of the first slash, the length where there is none. */
  function FirstSlash(s: string): (n: nat)
    ensures n <= |s| && (n < |s| ==> s[n] == '/')
    ensures forall i | 0 <= i < n :: s[i] != '/'
  {
    if s == "" || s[0] == '/' then 0 else 1 + FirstSlash(s[1..])
  }

  /** The components of what follows a separator. */
  function Parse(rest: string): Option<seq<string>>
    decreases |rest|
  {
    if rest == "" then Some([])
    else
      var n := FirstSlash(rest);
      var c := rest[..n];
      if !NameOk(c) then None
      else if n == |rest| then Some([c])
      else match Parse(rest[n + 1..])
        case None => None
        case Some(cs) => Some([c] + cs)
  }

  function Prepend(cs: seq<string>, more: Option<seq<string>>): Option<seq<string>> {
    if more.None? then None else Some(cs + more.value)
  }

  function Rest(path: string, begin: nat): Option<seq<string>> {
    if begin > |path| then Some([]) else Parse(path[begin..])
  }

  lemma {:induction false} FirstSlashIs(s: string, n: nat)
    requires n <= |s| && (n < |s| ==> s[n] == '/') && forall i | 0 <= i < n :: s[i] != '/'
    ensures FirstSlash(s) == n
  {
  }

  /** One step of the parser, from the first component of a text. */
  lemma {:induction false} ParseStep(c: string, tail: string)
    requires Free(c, '/')
    ensures Parse(c + "/" + tail) == if NameOk(c) then Prepend([c], Parse(tail)) else None
    ensures c != "" ==> Parse(c) == if NameOk(c) then Some([c]) else None
  {
    var s := c + "/" + tail;
    FirstSlashIs(s, |c|);
    FirstSlashIs(c, |c|);
    assert s[..|c|] == c && s[|c| + 1..] == tail && c[..|c|] == c;
  }

  /** What the parser does with the component the scan has delimited. */
  lemma {:induction false} NextComponent(path: string, begin: nat, index: nat)
    requires begin < index <= |path| && (index < |path| ==> path[index] == '/')
    requires forall k | begin <= k < index :: path[k] != '/'
    ensures Rest(path, begin) ==
            if NameOk(path[begin..index]) then Prepend([path[begin..index]], Rest(path, index + 1)) else None
  {
    var c := path[begin..index];
    hide Parse;
    if index < |path| {
      ParseStep(c, path[index + 1..]);
      assert path[begin..] == c + "/" + path[index + 1..];
    } else {
      ParseStep(c, "");
      assert path[begin..] == c && [c] + [] == [c];
    }
  }

  /** An empty component that is not at the very end has no parse. */
  lemma {:induction false} EmptyComponent(path: string, begin: nat)
    requires begin < |path| && path[begin] == '/'
    ensures Rest(path, begin) == None
  {
    hide Parse;
    ParseStep("", path[begin + 1..]);
    assert path[begin..] == "" + "/" + path[begin + 1..];
  }

  /** `rest` is the components of `cs` joined by slashes, with or without a last one. */
  predicate Joins(rest: string, cs: seq<string>) {
    rest == Slashed(cs) || (cs != [] && rest + "/" == Slashed(cs))
  }

  lemma {:induction false} JoinsStep(c: string, tail: string, cs: seq<string>)
    ensures Slashed([c] + cs) == c + "/" + Slashed(cs)
    ensures Joins(tail, cs) ==> Joins(c + "/" + tail, [c] + cs)
    ensures Joins(c, [c])
  {
    assert ([c] + cs)[1..] == cs;
    assert c + "/" + tail + "/" == c + "/" + (tail + "/");
    assert [c][1..] == [] && Slashed([c]) == c + "/" + "";
  }

  lemma {:induction false} AllOkStep(c: string, cs: seq<string>)
    requires ComponentOk(c) && AllOk(cs)
    ensures AllOk([c] + cs)
  {
  }

  /** Whatever is parsed, joining gives the text back, with or without its last slash. */
  lemma {:induction false} ParseSound(rest: string)
    requires Parse(rest).Some? && Free(rest, '\0')
    ensures AllOk(Parse(rest).value) && Joins(rest, Parse(rest).value)
    decreases |rest|
  {
    if rest != "" {
      hide Parse, Joins, AllOk;
      var n := FirstSlash(rest);
      var c := rest[..n];
      assert Free(c, '/') && Free(c, '\0');
      if n == |rest| {
        assert c == rest;
        ParseStep(c, "");
        JoinsStep(c, "", []);
        AllOkOne(c);
      } else {
        var tail := rest[n + 1..];
        assert rest == c + "/" + tail;
        ParseStep(c, tail);
        forall i | 0 <= i < |tail| ensures tail[i] != '\0' {
          assert tail[i] == rest[n + 1 + i];
        }
        ParseSound(tail);
        JoinsStep(c, tail, Parse(tail).value);
        AllOkStep(c, Parse(tail).value);
      }
    }
  }

  lemma {:induction false} AllOkOne(c: string)
    requires ComponentOk(c)
    ensures AllOk([c])
  {
  }

  /** Joining any list of components and parsing gives the list back. */
  lemma {:induction false} ParseSlashed(cs: seq<string>)
    requires AllOk(cs)
    ensures Parse(Slashed(cs)) == Some(cs)
  {
    if cs != [] {
      hide Parse;
      ParseStep(cs[0], Slashed(cs[1..]));
      ParseSlashed(cs[1..]);
      assert cs == [cs[0]] + cs[1..];
    }
  }

  /** The same without the last slash. */
  lemma {:induction false} ParseShort(cs: seq<string>, rest: string)
    requires AllOk(cs) && cs != [] && rest + "/" == Slashed(cs)
    ensures Parse(rest) == Some(cs)
    decreases |cs|
  {
    hide Parse;
    var c, more := cs[0], cs[1..];
    assert cs == [c] + more;
    if more == [] {
      assert rest + "/" == c + "/";
      assert rest == (rest + "/")[..|rest|] == (c + "/")[..|c|] == c;
      ParseStep(c, "");
      assert cs == [c];
    } else {
      var tail := Shorter(c, more, rest);
      ParseShort(more, tail);
      ParseStep(c, tail);
    }
  }

  lemma {:induction false} Shorter(c: string, more: seq<string>, rest: string) returns (tail: string)
    requires more != [] && rest + "/" == c + "/" + Slashed(more)
    ensures rest == c + "/" + tail && tail + "/" == Slashed(more)
  {
    var whole, end := rest + "/", Slashed(more);
    var k := |c| + 1;
    assert |end| > 0;
    tail := rest[k..];
    assert end == whole[k..] == tail + "/";
    assert rest[..k] == whole[..k] == c + "/";
    assert rest == rest[..k] + tail;
  }

  lemma {:induction false} SlashedFree(cs: seq<string>)
    requires AllOk(cs)
    ensures Free(Slashed(cs), '\0')
  {
    if cs != [] {
      SlashedFree(cs[1..]);
    }
  }

  /** What both directions need of one list. */
  lemma {:induction false} PathParses(cs: seq<string>, trailing: bool)
    requires AllOk(cs)
    ensures var path := PathOf(cs, trailing);
      path != "" && path[0] == '/' && Free(path, '\0') && Parse(path[1..]) == Some(cs)
  {
    hide Parse;
    var body, path := Slashed(cs), PathOf(cs, trailing);
    SlashedFree(cs);
    if trailing || cs == [] {
      ParseSlashed(cs);
      assert path[1..] == body;
    } else {
      var short := body[..|body| - 1];
      SlashEnds(cs);
      assert short + "/" == body;
      ParseShort(cs, short);
      assert path[1..] == short;
    }
  }

  lemma {:induction false} SlashEnds(cs: seq<string>)
    requires cs != []
    ensures Slashed(cs) != "" && Slashed(cs)[|Slashed(cs)| - 1] == '/'
  {
    if cs[1..] != [] {
      SlashEnds(cs[1..]);
    }
  }

  /** The path that `PlanRootChain` can plan: anchor, no NUL, and a rest that parses. */
  predicate Plannable(path: string) {
    path != "" && path[0] == '/' && Free(path, '\0') && Parse(path[1..]).Some?
  }

  /** Parsing inverts joining: a path is plannable exactly when some list of components joins to it, and then
      its parse is the one list that does. */
  lemma {:induction false} PlannedExactly(path: string)
    ensures Plannable(path) <==> exists cs, trailing :: AllOk(cs) && path == PathOf(cs, trailing)
    ensures forall cs, trailing | AllOk(cs) && path == PathOf(cs, trailing) :: Parse(path[1..]) == Some(cs)
    ensures Plannable(path) ==>
              AllOk(Parse(path[1..]).value) && exists trailing :: path == PathOf(Parse(path[1..]).value, trailing)
  {
    hide Parse, Slashed, AllOk;
    if Plannable(path) {
      var rest := path[1..];
      forall i | 0 <= i < |rest| ensures rest[i] != '\0' {
        assert rest[i] == path[1 + i];
      }
      ParseSound(rest);
      var cs := Parse(rest).value;
      assert path == "/" + rest;
      if rest == Slashed(cs) {
        assert path == PathOf(cs, true);
      } else {
        assert (rest + "/")[..|rest|] == rest;
        assert path == PathOf(cs, false);
      }
    }
    forall cs, trailing | AllOk(cs) && path == PathOf(cs, trailing)
      ensures Parse(path[1..]) == Some(cs) && Plannable(path)
    {
      PathParses(cs, trailing);
    }
  }

  /** A path joined from a list of components, of which there are fewer than a 32-bit count can say. */
  predicate Planned(path: string, cs: seq<string>) {
    AllOk(cs) && |cs| < MAX_COMPONENTS && exists trailing :: path == PathOf(cs, trailing)
  }

  /** What the method needs: the plan is the parse, if that is short enough. */
  lemma {:induction false} PlannedBy(path: string, components: Option<seq<string>>)
    requires components == if Plannable(path) && |Parse(path[1..]).value| < MAX_COMPONENTS then Parse(path[1..])
        else None
    ensures components.Some? ==> Planned(path, components.value)
    ensures forall cs | Planned(path, cs) :: components == Some(cs)
  {
    hide Parse, Slashed, AllOk, PathOf, Free;
    PlannedExactly(path);
  }

  /** An accepted path is the anchor and its components joined, with at most one trailing slash; every list of
      components is planned back from its path. The scan runs an index over the path, `begin` marks where the
      component starts. */
  method PlanRootChain(path: string) returns (components: Option<seq<string>>)
    ensures components.Some? ==> Planned(path, components.value)
    ensures forall cs | Planned(path, cs) :: components == Some(cs)
  {
    hide Parse, Planned, AllOk, PathOf, Slashed;
    if path == "" || '\0' in path {
      assert !Free(path, '\0') || path == "";
      PlannedBy(path, None);
      return None;
    }
    assert Free(path, '\0');
    if path[0] != '/' || (|path| > 1 && path[1] == '/') {
      if path[0] == '/' {
        EmptyComponent(path, 1);
      }
      PlannedBy(path, None);
      return None;
    }
    ghost var whole := Rest(path, 1);
    var plan: seq<string> := [];
    var begin, index := 1, 1;
    assert Prepend([], whole) == whole by { if whole.Some? { assert [] + whole.value == whole.value; } }
    while index <= |path|
      invariant 1 <= begin <= index <= |path| + 1
      invariant forall k | begin <= k < index && k < |path| :: path[k] != '/'
      invariant index == |path| + 1 ==> begin == |path| + 1
      invariant whole == Prepend(plan, Rest(path, begin))
      decreases |path| + 1 - index
    {
      if index != |path| && path[index] != '/' {
        index := index + 1;
        continue;
      }
      if index == begin {
        if index == |path| {
          break;
        }
        EmptyComponent(path, begin);
        PlannedBy(path, None);
        return None;
      }
      var component := path[begin..index];
      NextComponent(path, begin, index);
      if component == "." || component == ".." {
        PlannedBy(path, None);
        return None;
      }
      PrependAppends(plan, component, Rest(path, index + 1));
      plan := plan + [component];
      begin := index + 1;
      index := index + 1;
    }
    RestEnds(path, begin);
    assert plan + [] == plan;
    if |plan| >= MAX_COMPONENTS {
      PlannedBy(path, None);
      return None;
    }
    PlannedBy(path, Some(plan));
    components := Some(plan);
  }

  lemma {:induction false} RestEnds(path: string, begin: nat)
    requires begin >= |path|
    ensures Rest(path, begin) == Some([])
  {
  }

  lemma {:induction false} PrependAppends(plan: seq<string>, c: string, more: Option<seq<string>>)
    ensures Prepend(plan, Prepend([c], more)) == Prepend(plan + [c], more)
  {
    if more.Some? {
      assert plan + ([c] + more.value) == plan + [c] + more.value;
    }
  }

  /** The names that lead down, and how many of them a plan may have. */
  lemma {:induction false} PlannedPlainly(path: string, cs: seq<string>)
    ensures Planned(path, cs) <==>
            && (forall c | c in cs :: c != "" && c != "." && c != ".." && '/' !in c && '\0' !in c)
            && |cs| < 4294967295
            && exists trailing :: path == PathOf(cs, trailing)
  {
    assert AllOk(cs) <==> forall c | c in cs :: ComponentOk(c) by {
      assert forall i | 0 <= i < |cs| :: cs[i] in cs;
    }
    forall c | c in cs ensures ComponentOk(c) <==> c != "" && c != "." && c != ".." && '/' !in c && '\0' !in c {
      FreeIsAbsent(c, '/');
      FreeIsAbsent(c, '\0');
    }
    hide AllOk, ComponentOk, PathOf;
  }

  lemma {:induction false} FreeIsAbsent(s: string, c: char)
    ensures Free(s, c) <==> c !in s
  {
    assert forall i | 0 <= i < |s| :: s[i] in s;
  }

  /** The same path from its last component backwards: a slash before every name, and one more at the end where
      there is a trailing one. */
  lemma {:induction false} PathGrows(cs: seq<string>, c: string, trailing: bool)
    ensures PathOf([], trailing) == "/"
    ensures PathOf(cs + [c], trailing) == PathOf(cs, true) + c + if trailing then "/" else ""
  {
    SlashedGrows(cs, c);
    var before, body := Slashed(cs), Slashed(cs + [c]);
    assert PathOf(cs, true) == "/" + before;
    assert "/" + body == "/" + before + c + "/";
    assert body[..|body| - 1] == before + c;
    assert "/" + (before + c) == "/" + before + c + "";
    hide Slashed;
  }

  lemma {:induction false} SlashedGrows(cs: seq<string>, c: string)
    ensures Slashed(cs + [c]) == Slashed(cs) + c + "/"
  {
    if cs == [] {
      assert [] + [c] == [c] && [c][1..] == [];
      assert Slashed([c]) == c + "/" + "" == "" + c + "/";
    } else {
      assert (cs + [c])[1..] == cs[1..] + [c];
      SlashedGrows(cs[1..], c);
      assert cs[0] + "/" + (Slashed(cs[1..]) + c + "/") == cs[0] + "/" + Slashed(cs[1..]) + c + "/";
    }
  }
}
