/** Paths as text and as components. */
module Paths {
  datatype Path = Path(absolute: bool, components: seq<string>)

  const SLASH: char := '/'

  // ------------------------------------------------------------------- lexer

  // Where the run of characters other than ch ends
  function Until(s: string, ch: char): (i: nat)
    ensures i <= |s|
    ensures forall j | 0 <= j < i :: s[j] != ch
    ensures i < |s| ==> s[i] == ch
  {
    if s == [] || s[0] == ch then 0 else 1 + Until(s[1..], ch)
  }

  class Lexer {
    const input: string
    var offset: nat

    ghost predicate Valid()
      reads this
    {
      offset <= |input|
    }

    ghost function Left(): string
      reads this
      requires Valid()
    {
      input[offset..]
    }

    constructor (input: string)
      ensures Valid() && Left() == input
    {
      this.input, offset := input, 0;
    }

    predicate Eof()
      reads this
    {
      offset >= |input|
    }

    method TryConsume(ch: char) returns (consumed: bool)
      requires Valid()
      modifies this
      ensures Valid()
      ensures consumed <==> old(Left()) != [] && old(Left())[0] == ch
      ensures Left() == if consumed then old(Left())[1..] else old(Left())
    {
      if !Eof() && input[offset] == ch {
        offset := offset + 1;
        return true;
      }
      return false;
    }

    method ConsumeUntil(ch: char) returns (token: string)
      requires Valid()
      modifies this
      ensures Valid()
      ensures token == old(Left())[..Until(old(Left()), ch)] && Left() == old(Left())[Until(old(Left()), ch)..]
    {
      var start := offset;
      ghost var rest := Left();
      while !Eof() && input[offset] != ch
        invariant start <= offset <= |input| && start == old(offset)
        invariant offset - start <= Until(rest, ch)
        decreases |input| - offset
      {
        assert input[offset] == rest[offset - start];
        offset := offset + 1;
      }
      assert !Eof() ==> input[offset] == rest[offset - start];
      token := input[start..offset];
    }
  }

  // ------------------------------------------------------------- parse, print

  function First(s: string): string {
    s[..Until(s, SLASH)]
  }

  // What follows the first component and its slash
  function Rest(s: string): (r: string)
    ensures s != [] ==> |r| < |s|
  {
    if Until(s, SLASH) < |s| then s[Until(s, SLASH) + 1..] else []
  }

  function Components(s: string): seq<string>
    decreases |s|
  {
    if s == [] then [] else [First(s)] + Components(Rest(s))
  }

  function Parse(s: string): Path
    requires |s| >= 1
  {
    if s[0] == SLASH then Path(true, Components(s[1..])) else Path(false, Components(s))
  }

  method ParsePath(s: string) returns (p: Path)
    requires |s| >= 1   // VERIFY in the source
    ensures p == Parse(s)
  {
    hide Until, Rest;
    var lexer := new Lexer(s);
    var absolute := lexer.TryConsume(SLASH);
    var components := [];
    ghost var all := Components(lexer.Left());
    while !lexer.Eof()
      invariant fresh(lexer) && lexer.Valid()
      invariant components + Components(lexer.Left()) == all
      decreases |lexer.Left()|
    {
      ghost var left := lexer.Left();
      UntilStops(left);
      var component := lexer.ConsumeUntil(SLASH);
      ghost var before := components;
      components := components + [component];
      if !lexer.Eof() {
        var _ := lexer.TryConsume(SLASH);
      }
      assert lexer.Left() == Rest(left);
      Regroup(before, component, Components(Rest(left)));
    }
    p := Path(absolute, components);
  }

  lemma UntilStops(s: string)
    ensures s[Until(s, SLASH)..] == if Until(s, SLASH) < |s| then [SLASH] + Rest(s) else []
    ensures Until(s, SLASH) == |s| ==> Rest(s) == []
  {
    var i := Until(s, SLASH);
    if i < |s| {
      HeadOf(s, i);
    }
  }

  lemma Regroup(a: seq<string>, c: string, b: seq<string>)
    ensures (a + [c]) + b == a + ([c] + b)
  {
  }

  lemma HeadOf(s: string, i: nat)
    requires i < |s|
    ensures s[i..] == [s[i]] + s[i + 1..]
  {
  }

  // Components with a slash between them
  function Join(components: seq<string>): string {
    if components == [] then []
    else if |components| == 1 then components[0]
    else components[0] + [SLASH] + Join(components[1..])
  }

  function Print(p: Path): string {
    (if p.absolute then [SLASH] else []) + Join(p.components)
  }

  // Path::string
  method PrintPath(p: Path) returns (s: string)
    ensures s == Print(p)
  {
    if p.absolute && |p.components| == 0 {
      return [SLASH];
    }
    s := [];
    var putSlash := p.absolute;
    for i := 0 to |p.components|
      invariant putSlash == (p.absolute || i > 0)
      invariant s == (if p.absolute && i > 0 then [SLASH] else []) + Join(p.components[..i])
    {
      JoinMore(p.components[..i], p.components[i]);
      assert p.components[..i + 1] == p.components[..i] + [p.components[i]];
      if putSlash {
        s := s + [SLASH];
      } else {
        putSlash := true;
      }
      s := s + p.components[i];
    }
    assert p.components[..|p.components|] == p.components;
  }

  lemma {:induction false} JoinMore(cs: seq<string>, c: string)
    ensures Join(cs + [c]) == if cs == [] then c else Join(cs) + [SLASH] + c
  {
    if cs != [] {
      assert (cs + [c])[1..] == cs[1..] + [c];
      JoinMore(cs[1..], c);
    }
  }

  // -------------------------------------------------------------- round trips

  lemma UntilIs(s: string, i: nat)
    requires i <= |s| && (forall j | 0 <= j < i :: s[j] != SLASH) && (i < |s| ==> s[i] == SLASH)
    ensures Until(s, SLASH) == i
  {
  }

  // The first component of a text that starts with a slash-free word
  lemma SplitAtSlash(c: string, rest: string)
    requires SLASH !in c
    ensures First(c) == c && Rest(c) == []
    ensures First(c + [SLASH] + rest) == c && Rest(c + [SLASH] + rest) == rest
  {
    var s := c + [SLASH] + rest;
    UntilIs(c, |c|);
    assert forall j | 0 <= j < |c| :: s[j] == c[j];
    UntilIs(s, |c|);
  }

  // What Join writes, Components reads, unless the last component is empty.
  lemma {:induction false} ComponentsOfJoin(cs: seq<string>)
    requires forall c | c in cs :: SLASH !in c
    ensures cs == [] || cs[|cs| - 1] != "" ==> Components(Join(cs)) == cs
    ensures cs != [] && cs[|cs| - 1] == "" ==> Components(Join(cs)) == cs[..|cs| - 1]
    decreases cs
  {
    hide Until, First, Rest;
    if cs != [] {
      SplitAtSlash(cs[0], Join(cs[1..]));
      if |cs| > 1 {
        ComponentsOfJoin(cs[1..]);
        assert cs == [cs[0]] + cs[1..];
      }
    }
  }

  lemma {:induction false} ComponentsHaveNoSlash(s: string)
    ensures forall c | c in Components(s) :: SLASH !in c
    decreases |s|
  {
    hide Until, Rest, First;
    if s != [] {
      FirstHasNoSlash(s);
      ComponentsHaveNoSlash(Rest(s));
    }
  }

  lemma FirstHasNoSlash(s: string)
    ensures SLASH !in First(s)
  {
  }

  // A path that its text determines
  predicate Plain(p: Path) {
    && (forall c | c in p.components :: SLASH !in c)
    && (|p.components| > 0 ==> p.components[|p.components| - 1] != "")
    && (!p.absolute ==> |p.components| > 0 && p.components[0] != "")
  }

  /** Parsing the printed path gives the path back for exactly the plain ones. */
  lemma ParsePrint(p: Path)
    ensures |Print(p)| >= 1 && Parse(Print(p)) == p <==> Plain(p)
  {
    hide Components, Join;
    var s := Print(p);
    if |s| >= 1 && Parse(s) == p {
      ComponentsHaveNoSlash(if s[0] == SLASH then s[1..] else s);
    }
    if forall c | c in p.components :: SLASH !in c {
      ComponentsOfJoin(p.components);
      FirstOfJoin(p.components);
      if p.absolute {
        assert s[1..] == Join(p.components);
      } else {
        assert s == Join(p.components);
      }
    }
  }

  lemma FirstOfJoin(cs: seq<string>)
    requires forall c | c in cs :: SLASH !in c
    ensures Join(cs) == [] <==> cs == [] || cs == [""]
    ensures Join(cs) != [] ==> (Join(cs)[0] == SLASH <==> cs[0] == "")
  {
    if cs != [] && cs[0] != "" {
      assert Join(cs)[0] == cs[0][0] && cs[0][0] in cs[0];
    }
  }

  lemma {:induction false} JoinOfComponents(s: string)
    ensures Join(Components(s)) == if s != [] && s[|s| - 1] == SLASH then s[..|s| - 1] else s
    decreases |s|
  {
    if s != [] {
      CutAtSlash(s);
      JoinOfComponents(Rest(s));
      hide Until, First, Rest;
      if Rest(s) != [] {
        assert Components(s)[1..] == Components(Rest(s));
      }
    }
  }

  lemma CutAtSlash(s: string)
    requires s != []
    ensures s == First(s) || s == First(s) + [SLASH] + Rest(s)
    ensures s == First(s) ==> Rest(s) == []
    ensures SLASH !in First(s)
  {
  }

  /** Printing a parsed string gives the string without one trailing slash. */
  lemma PrintParse(s: string)
    requires |s| >= 1
    ensures Print(Parse(s)) == if s != [SLASH] && s[|s| - 1] == SLASH then s[..|s| - 1] else s
  {
    if s[0] == SLASH {
      JoinOfComponents(s[1..]);
      assert s == [SLASH] + s[1..];
    } else {
      JoinOfComponents(s);
    }
  }

  // ----------------------------------------------------------------- combining

  function Parent(p: Path): Path
    requires |p.components| >= 1   // VERIFY in the source
  {
    p.(components := p.components[..|p.components| - 1])
  }

  function Filename(p: Path): string
    requires |p.components| >= 1
  {
    p.components[|p.components| - 1]
  }

  // operator/
  function Below(p: Path, q: Path): Path
    requires !q.absolute   // ASSERT in the source
  {
    p.(components := p.components + q.components)
  }

  /** The text of the one, a slash, and the text of the other */
  lemma PrintBelow(p: Path, q: Path)
    requires !q.absolute
    ensures Below(p, q).absolute == p.absolute
    ensures q.components == [] ==> Below(p, q) == p
    ensures q.components != [] ==>
      Print(Below(p, q)) == if p.components == [] then Print(p) + Print(q) else Print(p) + "/" + Print(q)
  {
    JoinBoth(p.components, q.components);
    assert p.components + [] == p.components;
  }

  lemma {:induction false} JoinBoth(a: seq<string>, b: seq<string>)
    ensures Join(a + b) == if a == [] then Join(b) else if b == [] then Join(a) else Join(a) + [SLASH] + Join(b)
  {
    if a == [] {
      assert a + b == b;
    } else if b == [] {
      assert a + b == a;
    } else {
      JoinBoth(a[1..], b);
      assert (a + b)[1..] == a[1..] + b;
    }
  }

  /** A parsed name under the parent is the path itself. */
  lemma ParentAndFilename(p: Path)
    requires |p.components| >= 1 && Filename(p) != "" && SLASH !in Filename(p)
    ensures !Parse(Filename(p)).absolute && Below(Parent(p), Parse(Filename(p))) == p
  {
    ParsePrint(Path(false, [Filename(p)]));
    assert Print(Path(false, [Filename(p)])) == Filename(p);
  }
}
