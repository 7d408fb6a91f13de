/** References to other services inside configuration text: `${{ services.<name>.<prop> }}`. */
module ServiceReferences {
  import opened Wrappers
  import opened Text

  datatype Reference = Reference(name: string, prop: string)

  /** A text is a sequence of single characters and tokens. */
  datatype Piece = Plain(c: char) | Token(raw: string)

  const OPEN := "${{"
  const CLOSE := "}}"
  const NAMESPACE := "services."
  const PROPS := ["host", "port", "internalUrl", "domain", "url"]

  /** Where the first closing braces are, or -1. */
  function Closing(s: string): (j: int)
    ensures j == -1 || (0 <= j && j + 2 <= |s|)
  {
    if |s| < 2 then -1
    else if s[..2] == CLOSE then 0
    else
      var j := Closing(s[1..]);
      if j < 0 then -1 else j + 1
  }

  /** How far a token goes after its opening: to the first closing braces, unless a line terminator is left in
      what is before them once its edges are trimmed. 0 if it does not close. */
  function BodyLength(u: string): (n: nat)
    ensures n == 0 || 2 <= n <= |u|
  {
    if Closing(u) >= 0 && OneLine(Trim(u[..Closing(u)])) then Closing(u) + 2 else 0
  }

  /** The length of the token a text starts with, 0 if it starts with none. */
  function TokenLength(s: string): (n: nat)
    ensures n == 0 || (5 <= n <= |s| && OPEN <= s)
  {
    if OPEN <= s && BodyLength(s[3..]) > 0 then 3 + BodyLength(s[3..]) else 0
  }

  function Scan(s: string): seq<Piece> {
    if s == "" then []
    else
      var n := TokenLength(s);
      if n > 0 then [Token(s[..n])] + Scan(s[n..]) else [Plain(s[0])] + Scan(s[1..])
  }

  function PieceText(p: Piece): string {
    match p
    case Plain(c) => [c]
    case Token(raw) => raw
  }

  function Render(pieces: seq<Piece>): string {
    if pieces == [] then "" else PieceText(pieces[0]) + Render(pieces[1..])
  }

  function LastDot(s: string): int {
    if s == "" then -1
    else if s[|s| - 1] == '.' then |s| - 1
    else LastDot(s[..|s| - 1])
  }

  function ParseReference(expr: string): Option<Reference> {
    if !(NAMESPACE <= expr) then None
    else
      var rest := expr[|NAMESPACE|..];
      var dot := LastDot(rest);
      if 0 <= dot < |rest| then Some(Reference(rest[..dot], rest[dot + 1..])) else Some(Reference(rest, ""))
  }

  /** The reference a piece stands for. */
  function ReferenceOf(p: Piece): Option<Reference> {
    if p.Token? && |p.raw| >= 5 then ParseReference(Trim(p.raw[3..|p.raw| - 2])) else None
  }

  function References(text: string): seq<Reference> {
    ReferencesIn(Scan(text))
  }

  function ReferencesIn(pieces: seq<Piece>): seq<Reference> {
    if pieces == [] then []
    else
      var ref := ReferenceOf(pieces[0]);
      (if ref.Some? then [ref.value] else []) + ReferencesIn(pieces[1..])
  }

  function MapReferences(text: string, fn: (Reference, string) -> string): string {
    Render(MapPieces(Scan(text), fn))
  }

  function MapPieces(pieces: seq<Piece>, fn: (Reference, string) -> string): seq<Piece> {
    if pieces == [] then []
    else
      var ref := ReferenceOf(pieces[0]);
      [if ref.Some? then Token(fn(ref.value, pieces[0].raw)) else pieces[0]] + MapPieces(pieces[1..], fn)
  }

  function Canonical(name: string, prop: string): string {
    OPEN + NAMESPACE + name + "." + prop + CLOSE
  }

  function RenameWith(from: string, to: string): (Reference, string) -> string {
    (ref: Reference, token: string) => if ref.name == from then Canonical(to, ref.prop) else token
  }

  function RenameReferences(text: string, from: string, to: string): string {
    MapReferences(text, RenameWith(from, to))
  }

  datatype Issue = UnknownService(token: string, name: string) | UnknownProperty(token: string, prop: string)

  function IssueOf(p: Piece, names: set<string>): Option<Issue> {
    var ref := ReferenceOf(p);
    if ref.None? then None
    else if ref.value.name !in names then Some(UnknownService(p.raw, ref.value.name))
    else if ref.value.prop !in PROPS then Some(UnknownProperty(p.raw, ref.value.prop))
    else None
  }

  function Issues(pieces: seq<Piece>, names: set<string>): seq<Issue> {
    if pieces == [] then []
    else
      var issue := IssueOf(pieces[0], names);
      (if issue.Some? then [issue.value] else []) + Issues(pieces[1..], names)
  }

  /** The problems of a text's references, in order; there are none exactly if every reference is known. */
  method InvalidReferences(text: string, names: set<string>) returns (issues: seq<Issue>)
    ensures issues == Issues(Scan(text), names)
    ensures issues == [] <==>
      forall r | r in References(text) :: r.name in names && r.prop in ["host", "port", "internalUrl", "domain", "url"]
  {
    issues := [];
    var pieces := Scan(text);
    assert pieces[0..] == pieces;
    for i := 0 to |pieces|
      invariant issues + Issues(pieces[i..], names) == Issues(pieces, names)
    {
      assert pieces[i..][1..] == pieces[i + 1..];
      var issue := IssueOf(pieces[i], names);
      if issue.Some? {
        issues := issues + [issue.value];
      }
    }
    assert pieces[|pieces|..] == [] && issues + [] == issues;
    NoIssuesIff(pieces, names);
  }

  lemma {:induction false} NoIssuesIff(pieces: seq<Piece>, names: set<string>)
    ensures Issues(pieces, names) == []
            <==> forall r | r in ReferencesIn(pieces) :: r.name in names && r.prop in PROPS
  {
    if pieces != [] {
      NoIssuesIff(pieces[1..], names);
      var ref, rest := ReferenceOf(pieces[0]), ReferencesIn(pieces[1..]);
      if ref.Some? {
        assert ReferencesIn(pieces) == [ref.value] + rest;
      }
    }
  }

  lemma {:induction false} RenderScan(s: string)
    ensures Render(Scan(s)) == s
  {
    hide TokenLength;
    if s != "" {
      var n := TokenLength(s);
      if n > 0 {
        RenderScan(s[n..]);
        assert s == s[..n] + s[n..];
      } else {
        RenderScan(s[1..]);
        assert s == [s[0]] + s[1..];
      }
    }
  }

  // How the closing braces and the head of a text depend on what follows.

  lemma {:induction false} ClosingOfPrefix(s: string, t: string)
    requires Closing(s) >= 0 && s[..Closing(s) + 2] <= t
    ensures Closing(t) == Closing(s)
  {
    assert forall i | 0 <= i < Closing(s) + 2 :: t[i] == s[i];
    if s[..2] == CLOSE {
      assert t[..2] == s[..2];
    } else {
      assert t[..2] == s[..2] by {
        assert t[0] == s[0] && t[1] == s[1];
      }
      ClosingOfPrefix(s[1..], t[1..]);
    }
  }

  lemma TokenOfPrefix(s: string, t: string)
    requires TokenLength(s) > 0 && s[..TokenLength(s)] <= t
    ensures TokenLength(t) == TokenLength(s)
  {
    var n := TokenLength(s);
    var j := Closing(s[3..]);
    assert forall i | 0 <= i < n :: t[i] == s[i];
    assert t[..3] == s[..3];
    assert s[3..][..j + 2] <= t[3..] by {
      assert t[3..][..j + 2] == s[3..][..j + 2];
    }
    ClosingOfPrefix(s[3..], t[3..]);
    assert t[3..][..j] == s[3..][..j];
  }

  /** Text without closing braces before it, followed by them. */
  lemma {:induction false} ClosingAt(inside: string, rest: string)
    requires Closing(inside) < 0
    requires inside == "" || inside[|inside| - 1] != '}'
    ensures Closing(inside + CLOSE + rest) == |inside|
  {
    var s := inside + CLOSE + rest;
    if inside == "" {
      assert s[..2] == CLOSE;
    } else {
      assert s[..2] == if |inside| == 1 then [inside[0], '}'] else inside[..2];
      assert s[1..] == inside[1..] + CLOSE + rest;
      ClosingAt(inside[1..], rest);
    }
  }

  /** Nothing closes in text without a brace, and none of it joins with what follows. */
  lemma {:induction false} ClosingAfterPlain(plain: string, s: string)
    requires Free(plain, '}')
    ensures Closing(plain + s) == if Closing(s) < 0 then -1 else |plain| + Closing(s)
  {
    if plain == "" {
      assert plain + s == s;
    } else {
      assert (plain + s)[1..] == plain[1..] + s;
      ClosingAfterPlain(plain[1..], s);
      assert |plain + s| >= 2 ==> (plain + s)[..2][0] == plain[0];
    }
  }

  lemma NoBraceNoClosing(plain: string)
    requires Free(plain, '}')
    ensures Closing(plain) < 0
  {
    ClosingAfterPlain(plain, "");
    assert plain + "" == plain;
  }

  lemma {:induction false} NoClosingInside(s: string)
    requires Closing(s) >= 0
    ensures Closing(s[..Closing(s)]) < 0
  {
    var j := Closing(s);
    if j > 0 {
      NoClosingInside(s[1..]);
      assert s[..j][1..] == s[1..][..j - 1];
      if j >= 2 {
        assert s[..j][..2] == s[..2];
      }
    }
  }

  lemma {:induction false} ClosingOfConcat(a: string, b: string)
    requires Closing(a) < 0 && Closing(b) < 0
    requires a == "" || b == "" || a[|a| - 1] != '}' || b[0] != '}'
    ensures Closing(a + b) < 0
  {
    hide Closing;
    if a == "" {
      assert a + b == b;
    } else {
      assert a == [a[0]] + a[1..] && a + b == [a[0]] + (a[1..] + b);
      ClosingStep(a[0], a[1..]);
      ClosingStep(a[0], a[1..] + b);
      ClosingOfConcat(a[1..], b);
    }
  }

  lemma ClosingStep(c: char, s: string)
    ensures Closing([c] + s) < 0 <==> Closing(s) < 0 && !(s != "" && c == '}' && s[0] == '}')
  {
    assert ([c] + s)[1..] == s;
    if s != "" {
      assert ([c] + s)[..2] == [c, s[0]];
    }
  }

  lemma {:induction false} ClosingOfParts(a: string, b: string)
    requires Closing(a + b) < 0
    ensures Closing(a) < 0 && Closing(b) < 0
  {
    ClosingOfNothing();
    hide Closing;
    if a == "" {
      assert a + b == b;
    } else {
      assert a == [a[0]] + a[1..] && a + b == [a[0]] + (a[1..] + b);
      ClosingStep(a[0], a[1..] + b);
      ClosingOfParts(a[1..], b);
      ClosingStep(a[0], a[1..]);
    }
  }

  lemma ClosingOfNothing()
    ensures Closing("") < 0
  {
  }

  lemma ClosingOfSlice(s: string, lo: nat, hi: nat)
    requires lo <= hi <= |s| && Closing(s) < 0
    ensures Closing(s[lo..hi]) < 0
  {
    hide Closing;
    assert s == s[..lo] + s[lo..] && s[lo..] == s[lo..hi] + s[hi..];
    ClosingOfParts(s[..lo], s[lo..]);
    ClosingOfParts(s[lo..hi], s[hi..]);
  }

  lemma {:induction false} LastDotSplits(s: string)
    ensures var dot := LastDot(s);
      (dot == -1 || (0 <= dot < |s| && s[dot] == '.')) && forall i | dot < i < |s| :: s[i] != '.'
  {
    if s != "" && s[|s| - 1] != '.' {
      LastDotSplits(s[..|s| - 1]);
    }
  }

  lemma {:induction false} LastDotOfJoin(name: string, prop: string)
    requires Free(prop, '.')
    ensures LastDot(name + "." + prop) == |name|
  {
    var s := name + "." + prop;
    if prop != "" {
      assert s[..|s| - 1] == name + "." + prop[..|prop| - 1];
      LastDotOfJoin(name, prop[..|prop| - 1]);
    }
  }

  /** A property that can be written back: it cannot run into the closing braces. */
  predicate Writable(prop: string) {
    && Closing(prop) < 0
    && Free(prop, '.')
    && OneLine(prop)
    && (prop == "" || (prop[|prop| - 1] != '}' && !IsSpace(prop[|prop| - 1])))
  }

  /** A name a reference can carry. */
  predicate Referable(name: string) {
    Closing(name) < 0 && OneLine(name)
  }

  function Inside(name: string, prop: string): string {
    NAMESPACE + name + "." + prop
  }

  lemma InsideCloses(name: string, prop: string)
    requires Referable(name) && Writable(prop)
    ensures Closing(Inside(name, prop)) < 0
  {
    NoBraceNoClosing(NAMESPACE);
    NoBraceNoClosing(".");
    hide Closing;
    ClosingOfConcat(NAMESPACE, name);
    ClosingOfConcat(NAMESPACE + name, ".");
    ClosingOfConcat(NAMESPACE + name + ".", prop);
  }

  lemma InsideIsOneLine(name: string, prop: string)
    requires Referable(name) && Writable(prop)
    ensures OneLine(Inside(name, prop))
  {
  }

  lemma InsideEdges(name: string, prop: string)
    requires Writable(prop)
    ensures var inside := Inside(name, prop); inside != "" && inside[0] == 's' && Tight(inside) && inside[|inside| - 1] != '}'
  {
  }

  lemma BodyAround(inside: string, rest: string)
    requires Closing(inside) < 0 && inside != "" && inside[|inside| - 1] != '}'
    requires Tight(inside) && OneLine(inside)
    ensures BodyLength(inside + CLOSE + rest) == |inside| + 2
  {
    hide Closing, Trim, OneLine, Tight;
    ClosingAt(inside, rest);
    TrimTight(inside);
    assert (inside + CLOSE + rest)[..|inside|] == inside;
  }

  lemma TokenOfBody(u: string)
    ensures TokenLength(OPEN + u) == if BodyLength(u) > 0 then 3 + BodyLength(u) else 0
  {
  }

  lemma InsideParses(name: string, prop: string)
    requires Free(prop, '.')
    ensures ParseReference(Inside(name, prop)) == Some(Reference(name, prop))
  {
    var inside := Inside(name, prop);
    LastDotOfJoin(name, prop);
    assert inside[..|NAMESPACE|] == NAMESPACE;
    var tail := inside[|NAMESPACE|..];
    assert tail == name + "." + prop;
    assert tail[..|name|] == name && tail[|name| + 1..] == prop;
  }

  lemma Unwrap(inside: string)
    ensures var raw := OPEN + inside + CLOSE; raw[3..|raw| - 2] == inside && |raw| == |inside| + 5
  {
  }

  lemma CanonicalLength(name: string, prop: string, rest: string)
    requires Referable(name) && Writable(prop)
    ensures TokenLength(Canonical(name, prop) + rest) == |Canonical(name, prop)|
    ensures Canonical(name, prop) == OPEN + Inside(name, prop) + CLOSE
  {
    var inside, token := Inside(name, prop), Canonical(name, prop);
    InsideCloses(name, prop);
    InsideIsOneLine(name, prop);
    InsideEdges(name, prop);
    BodyAround(inside, rest);
    TokenOfBody(inside + CLOSE + rest);
    assert token == OPEN + inside + CLOSE;
    hide TokenLength, BodyLength, Closing, OneLine, Inside, Canonical, Tight, Writable, Referable;
    assert token + rest == OPEN + (inside + CLOSE + rest);
  }

  /** The canonical form of a reference scans as one token and parses back. */
  lemma CanonicalIsToken(name: string, prop: string, rest: string)
    requires Referable(name) && Writable(prop)
    ensures TokenLength(Canonical(name, prop) + rest) == |Canonical(name, prop)|
    ensures ReferenceOf(Token(Canonical(name, prop))) == Some(Reference(name, prop))
  {
    CanonicalLength(name, prop, rest);
    InsideEdges(name, prop);
    InsideParses(name, prop);
    Unwrap(Inside(name, prop));
    TrimTight(Inside(name, prop));
    hide TokenLength, Inside, Canonical, ParseReference, Trim, Tight, Writable, Referable;
  }

  /** What is inside a scanned token. */
  lemma TokenExpr(raw: string)
    requires |raw| >= 5 && TokenLength(raw) == |raw|
    ensures
      var expr := Trim(raw[3..|raw| - 2]);
      Closing(expr) < 0 && OneLine(expr) && Tight(expr)
  {
    var u := raw[3..];
    var j := Closing(u);
    NoClosingInside(u);
    var lo, hi := TrimIsSlice(u[..j]);
    ClosingOfSlice(u[..j], lo, hi);
    TrimIsTight(u[..j]);
    assert raw[3..|raw| - 2] == u[..j];
  }

  lemma ExprProp(expr: string)
    requires Closing(expr) < 0 && OneLine(expr) && Tight(expr) && ParseReference(expr).Some?
    ensures var prop := ParseReference(expr).value.prop;
      prop == "" || prop[|prop| - 1] != '}' ==> Writable(prop)
  {
    hide Closing, LastDot, IsSpace, IsLineTerminator, OneLine, Tight;
    var tail := expr[|NAMESPACE|..];
    LastDotSplits(tail);
    var dot := LastDot(tail);
    if dot >= 0 {
      var start := |NAMESPACE| + dot + 1;
      assert tail[dot + 1..] == expr[start..];
      assert Free(expr[start..], '.');
      TailIsWritable(expr, start);
    } else {
      NothingIsWritable();
    }
  }

  lemma NothingIsWritable()
    ensures Writable("")
  {
  }

  lemma TailIsWritable(expr: string, start: nat)
    requires start <= |expr| && Closing(expr) < 0 && OneLine(expr) && Tight(expr) && Free(expr[start..], '.')
    ensures start == |expr| || expr[|expr| - 1] != '}' ==> Writable(expr[start..])
  {
    hide Closing, IsSpace, IsLineTerminator;
    ClosingOfSlice(expr, start, |expr|);
    assert expr[start..] == expr[start..|expr|];
  }

  /** A scanned token's property can be written back, but for a closing brace at its end. */
  lemma TokenProp(raw: string)
    requires |raw| >= 5 && TokenLength(raw) == |raw| && ReferenceOf(Token(raw)).Some?
    ensures var prop := ReferenceOf(Token(raw)).value.prop;
      prop == "" || prop[|prop| - 1] != '}' ==> Writable(prop)
  {
    hide TokenLength, ParseReference, Trim, Writable, Closing, OneLine, Tight;
    TokenExpr(raw);
    ExprProp(Trim(raw[3..|raw| - 2]));
  }

  function RenamePiece(p: Piece, from: string, to: string): Piece {
    var ref := ReferenceOf(p);
    if ref.Some? && ref.value.name == from then Token(Canonical(to, ref.value.prop)) else p
  }

  function RenamePieces(pieces: seq<Piece>, from: string, to: string): (r: seq<Piece>)
    ensures |r| == |pieces|
    ensures forall i | 0 <= i < |pieces| :: r[i] == RenamePiece(pieces[i], from, to)
  {
    if pieces == [] then [] else [RenamePiece(pieces[0], from, to)] + RenamePieces(pieces[1..], from, to)
  }

  lemma {:induction false} RenameMapsPieces(pieces: seq<Piece>, from: string, to: string)
    ensures MapPieces(pieces, RenameWith(from, to)) == RenamePieces(pieces, from, to)
  {
    if pieces != [] {
      RenameMapsPieces(pieces[1..], from, to);
    }
  }

  predicate Rewrites(raw: string, from: string) {
    var ref := ReferenceOf(Token(raw));
    ref.Some? && ref.value.name == from
  }

  /** A rewritten token's property must not end in a brace: it would join the closing ones. */
  predicate PropFits(raw: string, from: string) {
    Rewrites(raw, from) ==>
      var prop := ReferenceOf(Token(raw)).value.prop;
      prop == "" || prop[|prop| - 1] != '}'
  }

  predicate PropsFit(s: string, from: string) {
    forall p | p in Scan(s) && p.Token? :: PropFits(p.raw, from)
  }

  /** The text after a rename. */
  function Renamed(s: string, from: string, to: string): string {
    Render(RenamePieces(Scan(s), from, to))
  }

  lemma RenamedIsRename(s: string, from: string, to: string)
    ensures Renamed(s, from, to) == RenameReferences(s, from, to)
  {
    RenameMapsPieces(Scan(s), from, to);
  }

  /** One step of a rename: past a token, or past a character. */
  lemma RenamedStep(s: string, from: string, to: string)
    requires s != ""
    ensures
      var n := TokenLength(s);
      var head := if n > 0 then Token(s[..n]) else Plain(s[0]);
      Renamed(s, from, to) == PieceText(RenamePiece(head, from, to)) + Renamed(s[if n > 0 then n else 1..], from, to)
  {
  }

  lemma PropsFitStep(s: string, from: string)
    requires s != ""
    ensures
      var n := TokenLength(s);
      PropsFit(s, from) <==>
        (n > 0 ==> PropFits(s[..n], from)) && PropsFit(s[if n > 0 then n else 1..], from)
  {
  }

  lemma RenamedNothing(from: string, to: string)
    ensures Renamed("", from, to) == ""
  {
  }

  lemma PieceHead(raw: string, from: string, to: string)
    requires OPEN <= raw
    ensures OPEN <= PieceText(RenamePiece(Token(raw), from, to))
  {
    hide ReferenceOf;
  }

  lemma TakePrefix(head: string, s: string, k: nat)
    requires k <= |head| && head <= s
    ensures Take(s, k) == head[..k]
  {
  }

  /** A rename keeps the first characters of a text: tokens start the same before and after. */
  lemma {:induction false} RenamedHead(s: string, from: string, to: string, k: nat)
    requires k <= 3
    ensures Take(Renamed(s, from, to), k) == Take(s, k)
  {
    RenamedNothing(from, to);
    hide Renamed, RenamePiece, TokenLength;
    if s != "" && k > 0 {
      var n := TokenLength(s);
      if n == 0 {
        var u := s[1..];
        assert s == [s[0]] + u;
        RenamedHead(u, from, to, k - 1);
        RenamedPlain(s[0], u, from, to);
        TakeStep(s[0], u, k);
        TakeStep(s[0], Renamed(u, from, to), k);
      } else {
        RenamedStep(s, from, to);
        PieceHead(s[..n], from, to);
        TakePrefix(OPEN, s, k);
        TakePrefix(OPEN, Renamed(s, from, to), k);
      }
    }
  }

  lemma TakeStep(c: char, s: string, k: nat)
    requires k > 0
    ensures Take([c] + s, k) == [c] + Take(s, k - 1)
  {
  }

  /** Trimming a text that has something solid in it. */
  lemma {:induction false} TrimAround(gap: string, x: string)
    requires x != "" && !IsSpace(x[0])
    ensures OneLine(Trim(gap + x)) <==> OneLine(TrimLeft(gap)) && OneLine(TrimRight(x))
  {
    if gap != "" && IsSpace(gap[0]) {
      assert (gap + x)[1..] == gap[1..] + x;
      TrimAround(gap[1..], x);
    } else {
      assert TrimLeft(gap + x) == gap + x;
      TrimRightAround(gap, x);
      OneLineConcat(gap, TrimRight(x));
    }
  }

  lemma {:induction false} TrimRightAround(gap: string, x: string)
    requires x != "" && !IsSpace(x[0])
    ensures TrimRight(gap + x) == gap + TrimRight(x)
    decreases |x|
  {
    if IsSpace(x[|x| - 1]) {
      assert (gap + x)[..|gap + x| - 1] == gap + x[..|x| - 1];
      TrimRightAround(gap, x[..|x| - 1]);
    }
  }

  /** How the stretch up to the first closing braces changes: not at all, or in the rewritten token it ends in. */
  datatype Stretch = Same | Rewritten(gap: string, before: string, after: string)

  predicate Explains(d: Stretch, s: string, t: string) {
    match d
    case Same => s == t
    case Rewritten(gap, before, after) =>
      && s == gap + before && t == gap + after
      && before != "" && after != "" && before[0] == after[0] == '$'
      && OneLine(TrimRight(after))
  }

  /** A text that an unclosed opening in front of it would swallow after a rename: before any closing braces comes
      a rewritten token that holds a line terminator, and nothing else there does. `blank` says that only white
      space has been passed. */
  predicate Dangling(u: string, from: string, blank: bool) {
    if u == "" || CLOSE <= u then false
    else if TokenLength(u) > 0 then
      Rewrites(u[..TokenLength(u)], from) && !OneLine(TrimRight(u[..TokenLength(u) - 2]))
    else if blank && IsSpace(u[0]) then Dangling(u[1..], from, true)
    else !IsLineTerminator(u[0]) && Dangling(u[1..], from, false)
  }

  predicate Dangles(d: Stretch, blank: bool) {
    d.Rewritten? && OneLine(if blank then TrimLeft(d.gap) else d.gap) && !OneLine(TrimRight(d.before))
  }

  /** The first closing braces of a renamed text, and what is before them. */
  lemma {:induction false} RenamedClosing(s: string, from: string, to: string) returns (d: Stretch)
    requires PropsFit(s, from) && Referable(to)
    ensures Closing(s) < 0 ==> Renamed(s, from, to) == s && d.Same?
    ensures Closing(s) >= 0 ==>
      var t := Renamed(s, from, to);
      Closing(t) >= 0 && Explains(d, s[..Closing(s)], t[..Closing(t)])
    ensures forall blank :: Dangling(s, from, blank) <==> Dangles(d, blank)
    decreases |s|
  {
    d := Same;
    if s != "" {
      PropsFitStep(s, from);
      if TokenLength(s) > 0 {
        d := TokenClosing(s, from, to);
      } else {
        var inner := RenamedClosing(s[1..], from, to);
        RenamedStep(s, from, to);
        RenamedHead(s[1..], from, to, 1);
        d := OneMore(s[0], s[1..], Renamed(s[1..], from, to), inner);
        OneMoreDangles(s, from, inner, d);
        hide Closing, Explains, TokenLength, PropsFit, Renamed, Dangling, Dangles;
        assert s == [s[0]] + s[1..];
      }
    }
  }

  /** A character in front of two texts that start alike. */
  lemma OneMore(c: char, s: string, t: string, inner: Stretch) returns (d: Stretch)
    requires Take(s, 1) == Take(t, 1)
    requires Closing(s) < 0 ==> t == s && inner.Same?
    requires Closing(s) >= 0 ==> Closing(t) >= 0 && Explains(inner, s[..Closing(s)], t[..Closing(t)])
    ensures d == if CLOSE <= [c] + s || inner.Same? then Same else Rewritten([c] + inner.gap, inner.before, inner.after)
    ensures Closing([c] + s) < 0 ==> [c] + t == [c] + s && d.Same?
    ensures Closing([c] + s) >= 0 ==>
      Closing([c] + t) >= 0 && Explains(d, ([c] + s)[..Closing([c] + s)], ([c] + t)[..Closing([c] + t)])
  {
    d := if inner.Rewritten? then Rewritten([c] + inner.gap, inner.before, inner.after) else Same;
    assert ([c] + s)[1..] == s && ([c] + t)[1..] == t;
    if s != "" {
      assert t != "" && t[0] == s[0] by {
        assert Take(s, 1)[0] == s[0] && |Take(t, 1)| == 1;
      }
      assert ([c] + s)[..2] == [c, s[0]] == ([c] + t)[..2];
      if [c, s[0]] == CLOSE {
        d := Same;
      } else if Closing(s) >= 0 {
        assert ([c] + s)[..Closing(s) + 1] == [c] + s[..Closing(s)];
        assert ([c] + t)[..Closing(t) + 1] == [c] + t[..Closing(t)];
        assert inner.Rewritten? ==> [c] + (inner.gap + inner.before) == ([c] + inner.gap) + inner.before;
        assert inner.Rewritten? ==> [c] + (inner.gap + inner.after) == ([c] + inner.gap) + inner.after;
      }
    }
  }

  lemma OneMoreDangles(s: string, from: string, inner: Stretch, d: Stretch)
    requires s != "" && TokenLength(s) == 0
    requires forall blank :: Dangling(s[1..], from, blank) <==> Dangles(inner, blank)
    requires d == if CLOSE <= s || inner.Same? then Same else Rewritten([s[0]] + inner.gap, inner.before, inner.after)
    ensures forall blank :: Dangling(s, from, blank) <==> Dangles(d, blank)
  {
    hide OneLine, TokenLength, TrimRight, IsSpace, IsLineTerminator;
    if d.Rewritten? {
      OneLineConcat([s[0]], inner.gap);
      assert ([s[0]] + inner.gap)[1..] == inner.gap;
      OneLineChar(s[0]);
    }
  }

  lemma OneLineChar(c: char)
    ensures OneLine([c]) <==> !IsLineTerminator(c)
  {
    assert [c][0] == c;
  }

  /** The same at a token. */
  lemma TokenClosing(s: string, from: string, to: string) returns (d: Stretch)
    requires TokenLength(s) > 0 && PropFits(s[..TokenLength(s)], from) && Referable(to)
    ensures Closing(s) >= 0
    ensures
      var t := Renamed(s, from, to);
      Closing(t) >= 0 && Explains(d, s[..Closing(s)], t[..Closing(t)])
    ensures forall blank :: Dangling(s, from, blank) <==> Dangles(d, blank)
  {
    hide Closing, TokenLength, Renamed, PropFits, TrimRight, OneLine, Dangling, ParseReference, Trim;
    DanglingAtToken(s, from);
    NothingIsOneLine();
    var n, t := TokenLength(s), Renamed(s, from, to);
    var raw := s[..n];
    TokenOfPrefix(s, raw);
    ClosingInToken(s);
    RenamedToken(s, from, to);
    ClosingInToken(t);
    assert s[..n - 2] == raw[..n - 2];
    if !Rewrites(raw, from) {
      d := Same;
      assert t[..n - 2] == t[..n][..n - 2];
    } else {
      d := RewrittenClosing(raw, from, to);
      hide Explains, RenamePiece;
      var after := PieceText(RenamePiece(Token(raw), from, to));
      assert t[..|after| - 2] == t[..|after|][..|after| - 2] == after[..|after| - 2];
    }
  }

  lemma DanglingAtToken(s: string, from: string)
    requires TokenLength(s) > 0
    ensures forall blank :: Dangling(s, from, blank) <==>
      Rewrites(s[..TokenLength(s)], from) && !OneLine(TrimRight(s[..TokenLength(s) - 2]))
  {
    hide Rewrites, OneLine, TrimRight;
    assert !(CLOSE <= s) by {
      assert s[0] == OPEN[0];
    }
  }

  lemma NothingIsOneLine()
    ensures OneLine("") && TrimLeft("") == ""
  {
  }

  lemma RewrittenClosing(raw: string, from: string, to: string) returns (d: Stretch)
    requires |raw| >= 5 && TokenLength(raw) == |raw| && Rewrites(raw, from) && PropFits(raw, from) && Referable(to)
    ensures
      var after := PieceText(RenamePiece(Token(raw), from, to));
      && |after| >= 2
      && d == Rewritten("", raw[..|raw| - 2], after[..|after| - 2])
      && Explains(d, raw[..|raw| - 2], after[..|after| - 2])
  {
    TokenProp(raw);
    var prop := ReferenceOf(Token(raw)).value.prop;
    CanonicalLength(to, prop, "");
    d := Rewritten("", raw[..|raw| - 2], OPEN + Inside(to, prop));
    RewrittenToken(raw, to, prop);
    hide Closing, TokenLength, ReferenceOf, Writable, OneLine, Inside, Explains;
    var after := Canonical(to, prop);
    assert after[..|after| - 2] == d.after;
  }

  lemma RewrittenToken(raw: string, to: string, prop: string)
    requires OPEN <= raw && |raw| >= 5 && Referable(to) && Writable(prop)
    ensures Explains(Rewritten("", raw[..|raw| - 2], OPEN + Inside(to, prop)), raw[..|raw| - 2], OPEN + Inside(to, prop))
  {
    var after := OPEN + Inside(to, prop);
    InsideIsOneLine(to, prop);
    InsideEdges(to, prop);
    assert after[|after| - 1] == Inside(to, prop)[|Inside(to, prop)| - 1];
    assert OneLine(OPEN);
    hide OneLine, Inside, Writable, Referable;
    OneLineConcat(OPEN, Inside(to, prop));
    assert TrimRight(after) == after;
    assert raw[..|raw| - 2][0] == raw[0] == '$';
  }

  lemma ClosingInToken(s: string)
    requires TokenLength(s) > 0
    ensures Closing(s) == TokenLength(s) - 2
  {
    assert s == OPEN + s[3..];
    ClosingAfterPlain(OPEN, s[3..]);
  }

  lemma RenamedPlain(c: char, u: string, from: string, to: string)
    requires TokenLength([c] + u) == 0
    ensures Renamed([c] + u, from, to) == [c] + Renamed(u, from, to)
    ensures PropsFit([c] + u, from) <==> PropsFit(u, from)
  {
  }

  lemma NoOpening(s: string)
    requires s != "" && s[0] != '$'
    ensures TokenLength(s) == 0
  {
  }

  lemma RenamedAfterOpening(u: string, from: string, to: string)
    requires TokenLength(OPEN + u) == 0
    ensures Renamed(OPEN + u, from, to) == OPEN + Renamed(u, from, to)
    ensures PropsFit(OPEN + u, from) <==> PropsFit(u, from)
  {
    hide TokenLength, Renamed, PropsFit;
    var s2 := ['{'] + u;
    var s1 := ['{'] + s2;
    assert OPEN + u == ['$'] + s1;
    NoOpening(s1);
    NoOpening(s2);
    RenamedPlain('$', s1, from, to);
    RenamedPlain('{', s2, from, to);
    RenamedPlain('{', u, from, to);
    assert OPEN + Renamed(u, from, to) == ['$'] + (['{'] + (['{'] + Renamed(u, from, to)));
  }

  lemma BodyAfterRename(u: string, from: string, to: string)
    requires BodyLength(u) == 0 && PropsFit(u, from) && Referable(to)
    ensures BodyLength(Renamed(u, from, to)) > 0 <==> Dangling(u, from, true)
  {
    var d := RenamedClosing(u, from, to);
    if d.Rewritten? {
      TrimAround(d.gap, d.before);
      TrimAround(d.gap, d.after);
    }
    hide OneLine, Trim, TrimLeft, TrimRight, Closing, Renamed, Dangling, PropsFit, Referable;
  }

  /** Where no token starts, one starts after a rename for exactly the openings that dangle. */
  lemma TokenAfterRename(s: string, from: string, to: string)
    requires s != "" && TokenLength(s) == 0 && PropsFit(s, from) && Referable(to)
    ensures TokenLength(Renamed(s, from, to)) > 0 <==> OPEN <= s && Dangling(s[3..], from, true)
  {
    hide TokenLength, Renamed, BodyLength, PropsFit, Dangling, Referable;
    var t := Renamed(s, from, to);
    if OPEN <= s {
      var u := s[3..];
      assert s == OPEN + u;
      RenamedAfterOpening(u, from, to);
      TokenOfBody(u);
      BodyAfterRename(u, from, to);
      TokenOfBody(Renamed(u, from, to));
    } else {
      RenamedHead(s, from, to, 3);
      assert |t| >= 3 ==> t[..3] == Take(t, 3) == Take(s, 3);
    }
  }

  lemma RenamedToken(s: string, from: string, to: string)
    requires TokenLength(s) > 0 && PropFits(s[..TokenLength(s)], from) && Referable(to)
    ensures
      var n, t := TokenLength(s), Renamed(s, from, to);
      var piece := PieceText(RenamePiece(Token(s[..n]), from, to));
      TokenLength(t) == |piece| && t[..|piece|] == piece && t[|piece|..] == Renamed(s[n..], from, to)
  {
    var n, t := TokenLength(s), Renamed(s, from, to);
    var raw := s[..n];
    var piece := RenamePiece(Token(raw), from, to);
    RenamedStep(s, from, to);
    TokenOfPrefix(s, raw);
    if piece == Token(raw) {
      assert raw <= t;
      TokenOfPrefix(s, t);
    } else {
      TokenProp(raw);
      CanonicalIsToken(to, ReferenceOf(Token(raw)).value.prop, Renamed(s[n..], from, to));
    }
  }

  /** A caller can check it before a rename: no opening dangles in front of a token that is rewritten, and no
      rewritten property ends in a brace. */
  predicate Harmless(s: string, from: string)
    decreases |s|
  {
    if s == "" then true
    else if TokenLength(s) > 0 then PropFits(s[..TokenLength(s)], from) && Harmless(s[TokenLength(s)..], from)
    else !(OPEN <= s && Dangling(s[3..], from, true)) && Harmless(s[1..], from)
  }

  predicate Mentions(s: string, from: string) {
    exists p :: p in Scan(s) && p.Token? && Rewrites(p.raw, from)
  }

  /** Rescanning the renamed text finds the old pieces: the rewritten tokens in place of the old ones, and every
      other character and token as it was. */
  predicate Rescans(s: string, from: string, to: string) {
    Scan(Renamed(s, from, to)) == RenamePieces(Scan(s), from, to)
  }

  lemma {:induction false} HarmlessPropsFit(s: string, from: string)
    requires Harmless(s, from)
    ensures PropsFit(s, from)
    decreases |s|
  {
    if s != "" {
      PropsFitStep(s, from);
      HarmlessPropsFit(s[if TokenLength(s) > 0 then TokenLength(s) else 1..], from);
    }
  }

  lemma {:induction false} NothingToRename(s: string, from: string, to: string)
    requires !Mentions(s, from)
    ensures Renamed(s, from, to) == s && RenamePieces(Scan(s), from, to) == Scan(s)
  {
    forall i | 0 <= i < |Scan(s)| ensures RenamePieces(Scan(s), from, to)[i] == Scan(s)[i] {
      assert Scan(s)[i] in Scan(s);
    }
    assert RenamePieces(Scan(s), from, to) == Scan(s);
    RenderScan(s);
  }

  lemma MentionsStep(s: string, from: string)
    requires s != ""
    ensures
      var n := TokenLength(s);
      Mentions(s, from) <==> (n > 0 && Rewrites(s[..n], from)) || Mentions(s[if n > 0 then n else 1..], from)
  {
  }

  /** Rescanning goes one piece at a time. */
  lemma RescansStep(s: string, from: string, to: string)
    requires s != ""
    ensures
      var n, t := TokenLength(s), Renamed(s, from, to);
      var rest := s[if n > 0 then n else 1..];
      Rescans(s, from, to) <==>
        && (if n > 0 then TokenLength(t) == |PieceText(RenamePiece(Token(s[..n]), from, to))| else TokenLength(t) == 0)
        && Rescans(rest, from, to)
  {
  }

  /** A name that cannot be referred to breaks every token it is written into. */
  lemma BadNameBreaks(name: string, prop: string, rest: string)
    requires !Referable(name)
    ensures TokenLength(Canonical(name, prop) + rest) != |Canonical(name, prop)|
  {
    hide Closing, Trim, TokenLength, OneLine;
    var inside := Inside(name, prop);
    var u := inside + CLOSE + rest;
    assert Canonical(name, prop) + rest == OPEN + u;
    TokenOfBody(u);
    if BodyLength(u) == |inside| + 2 {
      NoClosingInside(u);
      assert u[..|inside|] == inside;
      assert inside[|NAMESPACE|..|NAMESPACE| + |name|] == name;
      ClosingOfSlice(inside, |NAMESPACE|, |NAMESPACE| + |name|);
      BadNameStays(name, prop);
    }
  }

  lemma BadNameStays(name: string, prop: string)
    requires !OneLine(name)
    ensures !OneLine(Trim(Inside(name, prop)))
  {
    var inside := Inside(name, prop);
    assert TrimLeft(inside) == inside;
    assert inside == (NAMESPACE + name) + ("." + prop);
    TrimRightAround(NAMESPACE + name, "." + prop);
    OneLineConcat(NAMESPACE, name);
    OneLineConcat(NAMESPACE + name, TrimRight("." + prop));
  }

  /** A brace at the end of a property joins the closing ones. */
  lemma BadPropBreaks(name: string, prop: string, rest: string)
    requires prop != "" && prop[|prop| - 1] == '}'
    ensures TokenLength(Canonical(name, prop) + rest) != |Canonical(name, prop)|
  {
    var inside := Inside(name, prop);
    var u := inside + CLOSE + rest;
    assert Canonical(name, prop) + rest == OPEN + u;
    TokenOfBody(u);
    if Closing(u) == |inside| {
      NoClosingBefore(u, |inside| - 1);
    }
  }

  /** The first closing braces are the first. */
  lemma {:induction false} NoClosingBefore(s: string, i: nat)
    requires i + 2 <= |s| && s[i] == '}' && s[i + 1] == '}'
    ensures 0 <= Closing(s) <= i
  {
    if i > 0 {
      NoClosingBefore(s[1..], i - 1);
    } else {
      assert s[..2] == CLOSE;
    }
  }

  /** The first condition of a good rename, piece by piece, once the rest of the text is known to rescan. */
  lemma HeadRescansIff(s: string, from: string, to: string)
    requires s != "" && (Mentions(s, from) ==> Referable(to))
    requires PropsFit(s[if TokenLength(s) > 0 then TokenLength(s) else 1..], from)
    ensures
      var n, t := TokenLength(s), Renamed(s, from, to);
      if n > 0 then
        TokenLength(t) == |PieceText(RenamePiece(Token(s[..n]), from, to))| <==> PropFits(s[..n], from)
      else
        TokenLength(t) == 0 <==> !(OPEN <= s && Dangling(s[3..], from, true))
  {
    var n, t := TokenLength(s), Renamed(s, from, to);
    PropsFitStep(s, from);
    MentionsStep(s, from);
    if n > 0 {
      TokenOfPrefix(s, s[..n]);
      RenamedStep(s, from, to);
      if !Rewrites(s[..n], from) {
        assert s[..n] <= t;
        TokenOfPrefix(s, t);
      } else if PropFits(s[..n], from) {
        RenamedToken(s, from, to);
      } else {
        BadPropBreaks(to, ReferenceOf(Token(s[..n])).value.prop, Renamed(s[n..], from, to));
      }
    } else if Mentions(s, from) {
      TokenAfterRename(s, from, to);
    } else {
      NothingToRename(s, from, to);
      if OPEN <= s {
        NothingDangles(s, from);
      }
    }
  }

  lemma NothingDangles(s: string, from: string)
    requires OPEN <= s && TokenLength(s) == 0 && !Mentions(s, from)
    ensures !Dangling(s[3..], from, true)
  {
    var u := s[3..];
    assert s == OPEN + u;
    MentionsAfterOpening(u, from);
    if Dangling(u, from, true) {
      DanglingMentions(u, from, true);
    }
  }

  lemma MentionsAfterOpening(u: string, from: string)
    requires TokenLength(OPEN + u) == 0
    ensures Mentions(OPEN + u, from) <==> Mentions(u, from)
  {
    var s0, s1, s2 := OPEN + u, "{{" + u, "{" + u;
    assert s0[1..] == s1 && s1[1..] == s2 && s2[1..] == u;
    assert s1[0] == s2[0] == '{' != OPEN[0];
    assert !(OPEN <= s1) && !(OPEN <= s2);
    MentionsStep(s0, from);
    MentionsStep(s1, from);
    MentionsStep(s2, from);
  }

  lemma {:induction false} DanglingMentions(u: string, from: string, blank: bool)
    requires Dangling(u, from, blank)
    ensures Mentions(u, from)
    decreases |u|
  {
    MentionsStep(u, from);
    if TokenLength(u) == 0 {
      DanglingMentions(u[1..], from, blank && IsSpace(u[0]));
    }
  }

  /** Rename, for every text and every pair of names: the renamed text rescans to the renamed pieces exactly if
      the rename is harmless and the new name, where it is written, can be referred to. */
  lemma {:induction false} RenameRescansIff(s: string, from: string, to: string)
    ensures Rescans(s, from, to) <==> Harmless(s, from) && (Mentions(s, from) ==> Referable(to))
    decreases |s|
  {
    if s != "" {
      var n, t := TokenLength(s), Renamed(s, from, to);
      var rest := s[if n > 0 then n else 1..];
      RenameRescansIff(rest, from, to);
      RescansStep(s, from, to);
      MentionsStep(s, from);
      if Mentions(s, from) && !Referable(to) && Rescans(rest, from, to) {
        assert n > 0 && Rewrites(s[..n], from);
        RenamedStep(s, from, to);
        BadNameBreaks(to, ReferenceOf(Token(s[..n])).value.prop, Renamed(rest, from, to));
      } else if Rescans(rest, from, to) {
        HarmlessPropsFit(rest, from);
        HeadRescansIff(s, from, to);
      }
    }
  }

  function RenameReference(r: Reference, from: string, to: string): Reference {
    if r.name == from then Reference(to, r.prop) else r
  }

  function RenameList(refs: seq<Reference>, from: string, to: string): (r: seq<Reference>)
    ensures |r| == |refs| && forall i | 0 <= i < |refs| :: r[i] == RenameReference(refs[i], from, to)
  {
    if refs == [] then [] else [RenameReference(refs[0], from, to)] + RenameList(refs[1..], from, to)
  }

  lemma PieceRefers(raw: string, from: string, to: string)
    requires TokenLength(raw) == |raw| > 0 && PropFits(raw, from) && (Rewrites(raw, from) ==> Referable(to))
    ensures
      var before, after := ReferenceOf(Token(raw)), ReferenceOf(RenamePiece(Token(raw), from, to));
      after == if before.Some? then Some(RenameReference(before.value, from, to)) else None
  {
    if Rewrites(raw, from) {
      TokenProp(raw);
      CanonicalIsToken(to, ReferenceOf(Token(raw)).value.prop, "");
    }
    hide ParseReference, Trim, TokenLength, Writable, Referable;
  }

  lemma {:induction false} RenamedPiecesRefer(s: string, from: string, to: string)
    requires PropsFit(s, from) && (Mentions(s, from) ==> Referable(to))
    ensures ReferencesIn(RenamePieces(Scan(s), from, to)) == RenameList(ReferencesIn(Scan(s)), from, to)
    decreases |s|
  {
    hide TokenLength, PropsFit, PropFits, Mentions, Rewrites, Referable, RenamePiece, ParseReference, Trim;
    if s != "" {
      var n := TokenLength(s);
      PropsFitStep(s, from);
      MentionsStep(s, from);
      RenamedPiecesRefer(s[if n > 0 then n else 1..], from, to);
      var p := if n > 0 then Token(s[..n]) else Plain(s[0]);
      if n > 0 {
        TokenOfPrefix(s, s[..n]);
        PieceRefers(s[..n], from, to);
      } else {
        PlainStays(s[0], from, to);
      }
      hide ReferenceOf;
      FirstPieceRefers(p, Scan(s[if n > 0 then n else 1..]), from, to);
    }
  }

  lemma PlainStays(c: char, from: string, to: string)
    ensures RenamePiece(Plain(c), from, to) == Plain(c) && ReferenceOf(Plain(c)) == None
  {
  }

  lemma FirstPieceRefers(p: Piece, rest: seq<Piece>, from: string, to: string)
    requires
      var before, after := ReferenceOf(p), ReferenceOf(RenamePiece(p, from, to));
      after == if before.Some? then Some(RenameReference(before.value, from, to)) else None
    requires ReferencesIn(RenamePieces(rest, from, to)) == RenameList(ReferencesIn(rest), from, to)
    ensures ReferencesIn(RenamePieces([p] + rest, from, to)) == RenameList(ReferencesIn([p] + rest), from, to)
  {
    hide ReferenceOf, RenamePiece;
    assert ([p] + rest)[1..] == rest;
    var refs := ReferencesIn(rest);
    if ReferenceOf(p).Some? {
      assert ([ReferenceOf(p).value] + refs)[1..] == refs;
    }
  }

  /** A one-line text holds nothing that could dangle. */
  lemma {:induction false} OneLineIsHarmless(s: string, from: string)
    requires OneLine(s) && PropsFit(s, from)
    ensures Harmless(s, from)
    decreases |s|
  {
    if s != "" {
      var n := TokenLength(s);
      PropsFitStep(s, from);
      OneLineIsHarmless(s[if n > 0 then n else 1..], from);
      if OPEN <= s {
        OneLineDoesNotDangle(s[3..], from, true);
      }
    }
  }

  lemma {:induction false} OneLineDoesNotDangle(u: string, from: string, blank: bool)
    requires OneLine(u)
    ensures !Dangling(u, from, blank)
    decreases |u|
  {
    if u != "" {
      if TokenLength(u) > 0 {
        TrimRightEnds(u[..TokenLength(u) - 2]);
      } else {
        OneLineDoesNotDangle(u[1..], from, blank && IsSpace(u[0]));
      }
    }
  }

  /** Known properties do not end in a brace. */
  lemma {:induction false} ValidPropsFit(s: string, from: string, names: set<string>)
    requires Issues(Scan(s), names) == []
    ensures PropsFit(s, from)
  {
    hide Scan, ReferenceOf, PropFits, Issues;
    NoIssuesIff(Scan(s), names);
    forall p | p in Scan(s) && p.Token? ensures PropFits(p.raw, from) {
      assert p == Token(p.raw);
      if ReferenceOf(p).Some? {
        ReferenceIsListed(Scan(s), p);
      }
      KnownPropFits(p.raw, from);
    }
  }

  lemma KnownPropFits(raw: string, from: string)
    requires ReferenceOf(Token(raw)).Some? ==> ReferenceOf(Token(raw)).value.prop in PROPS
    ensures PropFits(raw, from)
  {
  }

  lemma {:induction false} ReferenceIsListed(pieces: seq<Piece>, p: Piece)
    requires p in pieces && ReferenceOf(p).Some?
    ensures ReferenceOf(p).value in ReferencesIn(pieces)
  {
    if pieces[0] != p {
      ReferenceIsListed(pieces[1..], p);
    }
  }

  /** Rename preserves references: in a one-line text with only valid references, renaming to any name without
      closing braces and line terminators yields exactly the old reference list with the name replaced, still
      valid for the renamed set of names, and leaves every other piece as it was. */
  lemma RenamePreservesReferences(text: string, from: string, to: string, names: set<string>)
    requires OneLine(text) && Issues(Scan(text), names) == [] && Referable(to)
    ensures
      var after := RenameReferences(text, from, to);
      && Scan(after) == RenamePieces(Scan(text), from, to)
      && References(after) == RenameList(References(text), from, to)
      && Issues(Scan(after), names - {from} + {to}) == []
  {
    var after := RenameReferences(text, from, to);
    RenamedIsRename(text, from, to);
    ValidPropsFit(text, from, names);
    OneLineIsHarmless(text, from);
    RenameRescansIff(text, from, to);
    RenamedPiecesRefer(text, from, to);
    NoIssuesIff(Scan(text), names);
    NoIssuesIff(Scan(after), names - {from} + {to});
    forall r | r in References(after) ensures r.name in names - {from} + {to} && r.prop in PROPS {
      var i :| 0 <= i < |References(after)| && References(after)[i] == r;
      assert r == RenameReference(References(text)[i], from, to);
      assert References(text)[i] in References(text);
    }
  }

  lemma ReferencesPlain(c: char, u: string)
    requires TokenLength([c] + u) == 0
    ensures References([c] + u) == References(u)
  {
  }

  const SPANNING := "\nservices.db.url"

  /** A body whose first closing braces are at its end makes a token, if it is one line once it is trimmed. */
  lemma TokenAround(inside: string)
    requires Closing(inside) < 0 && (inside == "" || inside[|inside| - 1] != '}') && OneLine(Trim(inside))
    ensures TokenLength(OPEN + inside + CLOSE) == |inside| + 5
  {
    hide Closing, TokenLength, OneLine, Trim;
    ClosingAt(inside, "");
    var body := inside + CLOSE;
    assert inside + CLOSE + "" == body && body[..|inside|] == inside;
    TokenOfBody(body);
    assert OPEN + inside + CLOSE == OPEN + body;
  }

  lemma SpanningLength()
    ensures TokenLength(OPEN + SPANNING + CLOSE) == |SPANNING| + 5
  {
    SpanningExpr();
    InsideIsOneLine("db", "url");
    NoBraceNoClosing(SPANNING);
    hide TokenLength, OneLine, Trim, Inside, Closing;
    TokenAround(SPANNING);
  }

  lemma SpanningExpr()
    ensures Trim(SPANNING) == Inside("db", "url") && Referable("db") && Writable("url")
  {
    assert SPANNING[1..] == Inside("db", "url");
    TrimTight(Inside("db", "url"));
    NoBraceNoClosing("db");
    NoBraceNoClosing("url");
  }

  lemma SpanningReference()
    ensures ReferenceOf(Token(OPEN + SPANNING + CLOSE)) == Some(Reference("db", "url"))
  {
    Unwrap(SPANNING);
    SpanningExpr();
    InsideParses("db", "url");
    hide Trim, Inside, ParseReference;
  }

  /** A token behind an opening that never closes on its own. */
  function Behind(token: string): string {
    [' '] + (['a'] + ([' '] + token))
  }

  lemma SpanningFirstHalf()
    ensures
      var token := OPEN + SPANNING + CLOSE;
      !OneLine(TrimRight(token[..|token| - 2]))
  {
    var token := OPEN + SPANNING + CLOSE;
    var before := token[..|token| - 2];
    assert before[3] == '\n' && !IsSpace(before[|before| - 1]);
  }

  lemma BehindStaysOpen(token: string)
    requires TokenLength(token) == |token| > 0 && !OneLine(TrimRight(token[..|token| - 2]))
    ensures TokenLength(OPEN + Behind(token)) == 0
  {
    hide Closing, TokenLength, OneLine, Trim, TrimRight, TrimLeft;
    var u, half := Behind(token), token[..|token| - 2];
    var before := ['a', ' '] + half;
    ClosingInToken(token);
    ClosingAfterPlain([' ', 'a', ' '], token);
    TokenOfBody(u);
    assert u == [' ', 'a', ' '] + token;
    assert u[..|token| + 1] == [' '] + before;
    TrimAround([' '], before);
    TrimRightAround(['a', ' '], half);
    OneLineConcat(['a', ' '], TrimRight(half));
  }

  lemma BehindRefers(token: string)
    requires TokenLength(OPEN + Behind(token)) == 0
    ensures References(OPEN + Behind(token)) == References(token)
  {
    hide TokenLength, References;
    var t1 := [' '] + token;
    var t2 := ['a'] + t1;
    var t3 := Behind(token);
    var t4 := ['{'] + t3;
    var t5 := ['{'] + t4;
    assert OPEN + t3 == ['$'] + t5;
    NoOpening(t1);
    ReferencesPlain(' ', token);
    NoOpening(t2);
    ReferencesPlain('a', t1);
    NoOpening(t3);
    ReferencesPlain(' ', t2);
    NoOpening(t4);
    ReferencesPlain('{', t3);
    NoOpening(t5);
    ReferencesPlain('{', t4);
    ReferencesPlain('$', t5);
  }

  lemma TokenRefers(token: string)
    requires TokenLength(token) == |token| > 0
    ensures References(token) == if ReferenceOf(Token(token)).Some? then [ReferenceOf(Token(token)).value] else []
  {
    assert token[..|token|] == token && token[|token|..] == "";
    assert Scan(token) == [Token(token)] + Scan("") && Scan("") == [];
    var p := Token(token);
    assert Scan(token) == [p];
    assert [p][1..] == [] && ReferencesIn([p][1..]) == [];
    hide ReferenceOf, TokenLength, Scan;
    assert ReferencesIn([p]) == (if ReferenceOf(p).Some? then [ReferenceOf(p).value] else []) + [];
  }

  lemma BehindRenamed(token: string, from: string, to: string)
    requires TokenLength(OPEN + Behind(token)) == 0
    ensures Renamed(OPEN + Behind(token), from, to) == OPEN + Behind(Renamed(token, from, to))
  {
    hide TokenLength, Renamed, PropsFit;
    var t1 := [' '] + token;
    var t2 := ['a'] + t1;
    RenamedAfterOpening(Behind(token), from, to);
    NoOpening(t1);
    RenamedPlain(' ', token, from, to);
    NoOpening(t2);
    RenamedPlain('a', t1, from, to);
    NoOpening(Behind(token));
    RenamedPlain(' ', t2, from, to);
  }

  /** A token that is one line is swallowed by the opening before it. */
  lemma BehindIsSwallowed(token: string)
    requires TokenLength(token) == |token| > 0 && OneLine(token)
    ensures TokenLength(OPEN + Behind(token)) == |token| + 6
  {
    hide TokenLength, Closing, OneLine, Trim;
    var u := Behind(token);
    assert u == [' ', 'a', ' '] + token;
    ClosingInToken(token);
    ClosingAfterPlain([' ', 'a', ' '], token);
    TokenOfBody(u);
    PlainEdge();
    OneLineConcat([' ', 'a', ' '], token);
    var body := u[..Closing(u)];
    assert body + u[Closing(u)..] == u;
    OneLineConcat(body, u[Closing(u)..]);
    var lo, hi := TrimIsSlice(body);
    assert body[..lo] + (body[lo..hi] + body[hi..]) == body;
    OneLineConcat(body[..lo], body[lo..hi] + body[hi..]);
    OneLineConcat(body[lo..hi], body[hi..]);
  }

  lemma PlainEdge()
    ensures OneLine([' ', 'a', ' '])
  {
  }

  /** What starts with `a` is no reference. */
  lemma NoReference(inside: string)
    ensures ParseReference(Trim([' ', 'a'] + inside)) == None
  {
    var x := ['a'] + inside;
    assert ([' ', 'a'] + inside)[1..] == x;
    assert TrimLeft([' ', 'a'] + inside) == TrimLeft(x) == x;
    TrimRightEnds(x);
    KeepsHead(x);
    assert TrimRight(x)[0] == 'a';
    assert NAMESPACE[0] == 's';
  }

  lemma {:induction false} KeepsHead(x: string)
    requires x != "" && !IsSpace(x[0])
    ensures TrimRight(x) != ""
  {
    if IsSpace(x[|x| - 1]) {
      KeepsHead(x[..|x| - 1]);
    }
  }

  lemma BehindSaysNothing(token: string)
    requires TokenLength(token) == |token| > 0 && OneLine(token)
    ensures References(OPEN + Behind(token)) == []
  {
    hide TokenLength, Trim, ParseReference, References, OneLine, Scan, BodyLength;
    var t := OPEN + Behind(token);
    BehindIsSwallowed(token);
    TokenRefers(t);
    NoReference([' '] + token[..|token| - 2]);
    BehindInside(token);
  }

  lemma BehindInside(token: string)
    requires |token| >= 2
    ensures
      var t := OPEN + Behind(token);
      t[3..|t| - 2] == [' ', 'a'] + ([' '] + token[..|token| - 2])
  {
    var n := |token| - 2;
    var inside := [' ', 'a'] + ([' '] + token[..n]);
    assert token == token[..n] + token[n..];
    assert OPEN + Behind(token) == OPEN + inside + token[n..];
  }

  lemma SpanningRenamed(to: string)
    requires Referable(to)
    ensures
      var token := OPEN + SPANNING + CLOSE;
      var after := Renamed(token, "db", to);
      after == Canonical(to, "url") && TokenLength(after) == |after| > 0 && OneLine(after)
  {
    var token := OPEN + SPANNING + CLOSE;
    SpanningLength();
    SpanningReference();
    SpanningExpr();
    RenamedNothing("db", to);
    CanonicalLength(to, "url", "");
    InsideIsOneLine(to, "url");
    hide TokenLength, ReferenceOf, Renamed, OneLine, Inside, Canonical;
    RenamedStep(token, "db", to);
    assert token[..|token|] == token && token[|token|..] == "";
    var after := Canonical(to, "url");
    assert after + "" == after;
    EdgesAreOneLine();
    OneLineConcat(OPEN, Inside(to, "url"));
    OneLineConcat(OPEN + Inside(to, "url"), CLOSE);
  }

  lemma EdgesAreOneLine()
    ensures OneLine(OPEN) && OneLine(CLOSE)
  {
  }

  /** Why the condition is there: in the text `${{ a ${{<newline>services.db.url}}` the unclosed opening swallows the
      reference once a rename, to whatever name, has put it on one line. */
  lemma RenameCanLoseReference(to: string)
    requires Referable(to)
    ensures
      var text := OPEN + Behind(OPEN + SPANNING + CLOSE);
      && References(text) == [Reference("db", "url")] && References(RenameReferences(text, "db", to)) == []
      && !Rescans(text, "db", to) && !Harmless(text, "db")
  {
    var token := OPEN + SPANNING + CLOSE;
    var text := OPEN + Behind(token);
    SpanningLength();
    SpanningReference();
    SpanningFirstHalf();
    hide TokenLength, ReferenceOf, Dangling, References, Behind, TrimRight, Renamed, Rescans, OneLine, Referable;
    BehindStaysOpen(token);
    BehindRefers(token);
    TokenRefers(token);
    SpanningRenamed(to);
    BehindRenamed(token, "db", to);
    BehindSaysNothing(Renamed(token, "db", to));
    RenamedIsRename(text, "db", to);
    LostIsNotRescanned(text, "db", to);
    RenameRescansIff(text, "db", to);
  }

  /** A text whose references vanish is not rescanned as its renamed pieces. */
  lemma LostIsNotRescanned(text: string, from: string, to: string)
    requires Referable(to) && References(text) != [] && References(Renamed(text, from, to)) == []
    ensures !Rescans(text, from, to)
  {
    RenameRescansIff(text, from, to);
    if Rescans(text, from, to) {
      HarmlessPropsFit(text, from);
      RenamedPiecesRefer(text, from, to);
    }
  }
  // What is a token, a reference and an issue, letter by letter.

  /** Closing braces stand at `k`. */
  predicate ClosesAt(s: string, k: nat) {
    k + 1 < |s| && s[k] == '}' && s[k + 1] == '}'
  }

  lemma {:induction false} ClosingIsFirst(s: string, j: nat)
    requires ClosesAt(s, j) && forall k | 0 <= k < j :: !ClosesAt(s, k)
    ensures Closing(s) == j
  {
    if j > 0 {
      assert !ClosesAt(s, 0);
      assert forall k | 0 <= k < j - 1 :: ClosesAt(s[1..], k) ==> ClosesAt(s, k + 1);
      ClosingIsFirst(s[1..], j - 1);
      assert s[..2] == [s[0], s[1]];
    } else {
      assert s[..2] == [s[0], s[1]];
    }
  }

  lemma {:induction false} NothingCloses(s: string)
    requires forall k | 0 <= k < |s| :: !ClosesAt(s, k)
    ensures Closing(s) < 0
  {
    if |s| >= 2 {
      assert !ClosesAt(s, 0);
      assert forall k | 0 <= k < |s| - 1 :: ClosesAt(s[1..], k) ==> ClosesAt(s, k + 1);
      NothingCloses(s[1..]);
      assert s[..2] == [s[0], s[1]];
    }
  }

  /** A token goes from its opening to the first closing braces, if what is between them has no line break but at its edges. */
  lemma TokenIs(inside: string, rest: string)
    requires forall k | 0 <= k < |inside| :: !ClosesAt(inside + "}}", k)
    ensures TokenLength(['$', '{', '{'] + inside + ['}', '}'] + rest) == if OneLine(Trim(inside)) then |inside| + 5 else 0
  {
    var u := inside + ['}', '}'] + rest;
    var s := ['$', '{', '{'] + inside + ['}', '}'] + rest;
    assert s == ['$', '{', '{'] + u && s[3..] == u;
    assert forall k | 0 <= k < |inside| :: ClosesAt(u, k) ==> ClosesAt(inside + "}}", k);
    ClosingIsFirst(u, |inside|);
    assert u[..|inside|] == inside;
    hide Closing, Trim, OneLine;
    assert OPEN == ['$', '{', '{'] && s[..3] == OPEN;
  }

  /** Nothing else is one: without an opening or without closing braces there is no token. */
  lemma NoToken(s: string)
    requires !(|s| >= 3 && s[0] == '$' && s[1] == '{' && s[2] == '{') || forall k | 3 <= k < |s| :: !ClosesAt(s, k)
    ensures TokenLength(s) == 0
  {
    if OPEN <= s {
      assert s[0] == OPEN[0] && s[1] == OPEN[1] && s[2] == OPEN[2];
      assert forall k | 0 <= k < |s| - 3 :: ClosesAt(s[3..], k) ==> ClosesAt(s, k + 3);
      NothingCloses(s[3..]);
    }
  }

  /** A text is scanned from the left: a piece is a token exactly if one starts where it stands, and then it is that one. */
  lemma {:induction false} ScanIsLeftmost(s: string, k: nat)
    requires k < |Scan(s)|
    ensures
      var pieces := Scan(s);
      var here := Render(pieces[k..]);
      match pieces[k]
      case Plain(c) => TokenLength(here) == 0 && here != "" && here[0] == c
      case Token(raw) => |raw| == TokenLength(here) > 0 && raw <= here
  {
    RenderScan(s);
    var n := TokenLength(s);
    hide TokenLength;
    if k == 0 {
      assert Scan(s)[0..] == Scan(s);
    } else if n > 0 {
      ScanIsLeftmost(s[n..], k - 1);
      assert Scan(s)[k..] == Scan(s[n..])[k - 1..];
    } else {
      ScanIsLeftmost(s[1..], k - 1);
      assert Scan(s)[k..] == Scan(s[1..])[k - 1..];
    }
  }

  /** What a token refers to: behind `services.` the name up to the last dot, and the property behind it. */
  lemma ReferenceIs(inside: string, name: string, prop: string)
    requires Free(prop, '.')
    ensures Trim(inside) == "services." + name + "." + prop ==>
      ReferenceOf(Token(['$', '{', '{'] + inside + ['}', '}'])) == Some(Reference(name, prop))
    ensures Trim(inside) == "services." + prop ==>
      ReferenceOf(Token(['$', '{', '{'] + inside + ['}', '}'])) == Some(Reference(prop, ""))
    ensures !("services." <= Trim(inside)) ==> ReferenceOf(Token(['$', '{', '{'] + inside + ['}', '}'])) == None
  {
    var raw := ['$', '{', '{'] + inside + ['}', '}'];
    assert raw[3..|raw| - 2] == inside;
    hide Trim, LastDot;
    LastDotOfJoin(name, prop);
    var rest := name + "." + prop;
    assert ("services." + name + "." + prop)[9..] == rest;
    assert rest[..|name|] == name && rest[|name| + 1..] == prop;
    LastDotSplits(prop);
    assert ("services." + prop)[9..] == prop;
  }

  /** What a rename writes. */
  lemma CanonicalIs(name: string, prop: string)
    ensures Canonical(name, prop) == ['$', '{', '{'] + "services." + name + "." + prop + ['}', '}']
  {
    assert OPEN == ['$', '{', '{'] && CLOSE == ['}', '}'];
  }

  /** What a rename does to one piece. */
  lemma RenamedPieceIs(p: Piece, from: string, to: string)
    ensures
      match ReferenceOf(p)
      case Some(r) =>
        if r.name == from then RenamePiece(p, from, to) == Token(['$', '{', '{'] + "services." + to + "." + r.prop + ['}', '}'])
        else RenamePiece(p, from, to) == p
      case None => RenamePiece(p, from, to) == p
  {
    hide Trim, LastDot;
    if ReferenceOf(p).Some? {
      CanonicalIs(to, ReferenceOf(p).value.prop);
    }
  }

  /** What an issue says: a name that no service has, or else a property that is none of the five, and the token. */
  lemma IssueTells(p: Piece, names: set<string>)
    ensures forall token, name :: IssueOf(p, names) == Some(UnknownService(token, name)) <==>
      p == Token(token) && name !in names && exists prop :: ReferenceOf(p) == Some(Reference(name, prop))
    ensures forall token, prop :: IssueOf(p, names) == Some(UnknownProperty(token, prop)) <==>
      && p == Token(token) && prop !in ["host", "port", "internalUrl", "domain", "url"]
      && exists name :: name in names && ReferenceOf(p) == Some(Reference(name, prop))
  {
    hide ParseReference;
  }

  /** The issues of a text come in the order of its tokens. */
  lemma {:induction false} IssuesInOrder(a: seq<Piece>, p: Piece, names: set<string>)
    ensures Issues([], names) == []
    ensures Issues(a + [p], names) == Issues(a, names) + if IssueOf(p, names).Some? then [IssueOf(p, names).value] else []
  {
    hide IssueOf;
    if a == [] {
      assert a + [p] == [p] && [p][1..] == [];
    } else {
      IssuesInOrder(a[1..], p, names);
      assert (a + [p])[1..] == a[1..] + [p];
    }
  }

  /** And so do its references. */
  lemma {:induction false} ReferencesInOrder(a: seq<Piece>, p: Piece)
    ensures ReferencesIn([]) == []
    ensures ReferencesIn(a + [p]) == ReferencesIn(a) + if ReferenceOf(p).Some? then [ReferenceOf(p).value] else []
  {
    hide ReferenceOf;
    if a == [] {
      assert a + [p] == [p] && [p][1..] == [];
    } else {
      ReferencesInOrder(a[1..], p);
      assert (a + [p])[1..] == a[1..] + [p];
    }
  }
}
