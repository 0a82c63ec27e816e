/** Normalising fractions (benchmark/reasoning_benchmark/answer_extraction.py, `_fix_fracs`):
    braces are put around the two characters that follow a bare fraction command. */
module FixFracs {
  import opened Wrappers

  const FRAC := "\\frac"

  predicate OccursAt(s: string, q: nat) {
    q + 5 <= |s| && s[q..q + 5] == FRAC
  }

  /** The first occurrence of the command. */
  function Find(s: string): (r: Option<nat>)
    ensures r.Some? ==> OccursAt(s, r.value) && forall q: nat :: q < r.value ==> !OccursAt(s, q)
    ensures r.None? ==> forall q: nat :: !OccursAt(s, q)
  {
    if |s| < 5 then None
    else if s[..5] == FRAC then Some(0)
    else
      var r := Find(s[1..]);
      assert forall q: nat :: q > 0 ==> (OccursAt(s, q) <==> OccursAt(s[1..], q - 1)) by { Shift(s); }
      if r.Some? then Some(r.value + 1) else None
  }

  lemma {:induction false} Shift(s: string)
    requires |s| > 0
    ensures forall q: nat :: q > 0 ==> (OccursAt(s, q) <==> OccursAt(s[1..], q - 1))
  {
    forall q: nat | q > 0 ensures OccursAt(s, q) <==> OccursAt(s[1..], q - 1) {
      if q + 5 <= |s| { assert s[q..q + 5] == s[1..][q - 1..q + 4]; }
    }
  }

  /** `s.split("\\frac")`. */
  function Split(s: string): (ps: seq<string>)
    ensures |ps| > 0
    decreases |s|
  {
    match Find(s)
    case None => [s]
    case Some(p) => [s[..p]] + Split(s[p + 5..])
  }

  function Join(ps: seq<string>): string
    requires |ps| > 0
  {
    if |ps| == 1 then ps[0] else ps[0] + FRAC + Join(ps[1..])
  }

  predicate Clean(p: string) {
    Find(p).None?
  }

  predicate AllClean(ps: seq<string>) {
    forall i :: 0 <= i < |ps| ==> Clean(ps[i])
  }

  // ---------- splitting and joining are inverse ----------

  lemma {:induction false} NoneIsClean(p: string)
    requires forall q: nat :: !OccursAt(p, q)
    ensures Clean(p)
  {
  }

  lemma {:induction false} SplitClean(s: string)
    ensures Join(Split(s)) == s && AllClean(Split(s))
    decreases |s|
  {
    match Find(s) {
      case None =>
      case Some(p) =>
        SplitClean(s[p + 5..]);
        assert s == s[..p] + FRAC + s[p + 5..];
        forall q: nat ensures !OccursAt(s[..p], q) {
          if OccursAt(s[..p], q) {
            assert s[..p][q..q + 5] == s[q..q + 5];
            assert OccursAt(s, q);
          }
        }
        NoneIsClean(s[..p]);
        var rest := Split(s[p + 5..]);
        assert ([s[..p]] + rest)[1..] == rest;
    }
  }

  /** The command cannot begin inside a piece: none of its other letters is a backslash. */
  lemma {:induction false} FindAfterClean(p: string, rest: string)
    requires Clean(p)
    ensures Find(p + FRAC + rest) == Some(|p|)
  {
    var s := p + FRAC + rest;
    assert s[|p|..|p| + 5] == FRAC;
    assert OccursAt(s, |p|);
    forall q: nat | q < |p| ensures !OccursAt(s, q) {
      if q + 5 <= |p| {
        assert s[q..q + 5] == p[q..q + 5];
        assert !OccursAt(p, q);
      } else if q + 5 <= |s| {
        assert s[|p|] == '\\' != FRAC[|p| - q];
        assert s[q..q + 5][|p| - q] == s[|p|];
      }
    }
  }

  lemma {:induction false} JoinSplit(ps: seq<string>)
    requires |ps| > 0 && AllClean(ps)
    ensures Split(Join(ps)) == ps
  {
    if |ps| > 1 {
      hide Find;
      var rest := Join(ps[1..]);
      FindAfterClean(ps[0], rest);
      var s := ps[0] + FRAC + rest;
      assert s[..|ps[0]|] == ps[0] && s[|ps[0]| + 5..] == rest;
      JoinSplit(ps[1..]);
    }
  }

  // ---------- one piece ----------

  /** A piece that is neither braced nor long enough makes the code give up. */
  predicate TooShort(sub: string) {
    !(|sub| > 0 && sub[0] == '{') && |sub| < 2
  }

  function Brace(sub: string): (r: string)
    requires !TooShort(sub)
    ensures |r| > 0 && r[0] == '{'
  {
    if sub[0] == '{' then sub
    else if sub[1] != '{' then "{" + [sub[0]] + "}{" + [sub[1]] + "}" + sub[2..]
    else "{" + [sub[0]] + "}" + [sub[1]] + sub[2..]
  }

  /** Braces cannot make a new fraction command. */
  lemma {:induction false} BraceClean(sub: string)
    requires !TooShort(sub) && Clean(sub)
    ensures Clean(Brace(sub))
  {
    hide Find;
    var r := Brace(sub);
    if sub[0] != '{' {
      var cut := if sub[1] != '{' then 6 else 4;
      assert r[2] == '}' && r[3] == '{';
      assert cut == 6 ==> r[5] == '}';
      forall q: nat ensures !OccursAt(r, q) {
        if OccursAt(r, q) {
          OccursNoBrace(r, q);
          assert q >= cut;
          assert r[q..q + 5] == sub[q - cut + 2..q - cut + 7];
          assert OccursAt(sub, q - cut + 2);
          CleanNone(sub, q - cut + 2);
        }
      }
      NoneIsClean(r);
    }
  }

  lemma {:induction false} CleanNone(p: string, q: nat)
    requires Clean(p)
    ensures !OccursAt(p, q)
  {
  }

  lemma {:induction false} OccursNoBrace(s: string, q: nat)
    requires OccursAt(s, q)
    ensures forall k :: q <= k < q + 5 ==> s[k] != '{' && s[k] != '}'
  {
    forall k | q <= k < q + 5 ensures s[k] != '{' && s[k] != '}' {
      assert s[k] == s[q..q + 5][k - q] == FRAC[k - q];
    }
  }

  // ---------- the whole string ----------

  predicate Fixable(ps: seq<string>) {
    forall i :: 0 < i < |ps| ==> !TooShort(ps[i])
  }

  predicate Braced(ps: seq<string>) {
    forall i :: 0 < i < |ps| ==> |ps[i]| > 0 && ps[i][0] == '{'
  }

  function BraceAll(ps: seq<string>): (r: seq<string>)
    requires |ps| > 0 && Fixable(ps)
    ensures |r| == |ps| && r[0] == ps[0]
    ensures forall i :: 0 < i < |ps| ==> r[i] == Brace(ps[i])
  {
    seq(|ps|, i requires 0 <= i < |ps| => if i == 0 then ps[0] else Brace(ps[i]))
  }

  function Fixed(s: string): string {
    if Fixable(Split(s)) then Join(BraceAll(Split(s))) else s
  }

  lemma {:induction false} BraceAllClean(ps: seq<string>)
    requires |ps| > 0 && Fixable(ps) && AllClean(ps)
    ensures AllClean(BraceAll(ps)) && Braced(BraceAll(ps))
  {
    hide Clean, Brace;
    forall i | 0 <= i < |ps| ensures Clean(BraceAll(ps)[i]) {
      if i > 0 { BraceClean(ps[i]); }
    }
  }

  /** The pieces of the result are the braced pieces of the input: the same fractions, each now
      followed by a brace. Without a piece that is too short this holds of every string; with
      one, the string comes back as it was. */
  lemma {:induction false} FixedPieces(s: string)
    ensures Fixable(Split(s)) ==> Split(Fixed(s)) == BraceAll(Split(s)) && Braced(Split(Fixed(s)))
    ensures !Fixable(Split(s)) ==> Fixed(s) == s
    ensures |Split(Fixed(s))| == |Split(s)|
    ensures Braced(Split(Fixed(s))) <==> Fixable(Split(s))
  {
    SplitClean(s);
    if Fixable(Split(s)) {
      BraceAllClean(Split(s));
      JoinSplit(BraceAll(Split(s)));
    } else {
      var i :| 0 < i < |Split(s)| && TooShort(Split(s)[i]);
    }
  }

  // ---------- what a reader of the result sees ----------

  /** The number of characters before the brace that closes the group one is in, `depth` deep. */
  function Closing(s: string, depth: nat): Option<nat> {
    if s == [] then None
    else if s[0] == '}' && depth == 0 then Some(0)
    else
      var d := if s[0] == '}' then depth - 1 else if s[0] == '{' then depth + 1 else depth;
      match Closing(s[1..], d)
      case None => None
      case Some(k) => Some(k + 1)
  }

  datatype Argument = Argument(text: string, rest: string)

  /** Takes one braced group off the front of a string, as TeX reads an argument. */
  function TakeGroup(s: string): Option<Argument> {
    if s == [] || s[0] != '{' then None
    else
      match Closing(s[1..], 0)
      case None => None
      case Some(k) => if k + 2 <= |s| then Some(Argument(s[1..k + 1], s[k + 2..])) else None
  }

  /** `r` reads as the two arguments that the bare piece `p` starts with: its first character, and
      its second one or, if that opens a group, what comes from there on. */
  predicate ReadsAs(r: string, p: string)
    requires |p| >= 2
  {
    && TakeGroup(r).Some? && TakeGroup(r).value.text == [p[0]]
    && var rest := TakeGroup(r).value.rest;
       if p[1] == '{' then rest == p[1..] else TakeGroup(rest) == Some(Argument([p[1]], p[2..]))
  }

  lemma {:induction false} TakeSingle(c: char, rest: string)
    ensures c != '{' && c != '}' ==> TakeGroup("{" + [c] + "}" + rest) == Some(Argument([c], rest))
    ensures c == '}' ==> TakeGroup("{" + [c] + "}" + rest) == Some(Argument("", "}" + rest))
  {
    var s, t, u := "{" + [c] + "}" + rest, [c] + "}" + rest, "}" + rest;
    assert s[1..] == t && t[1..] == u && t[0] == c && u[0] == '}';
    assert Closing(u, 0) == Some(0);
    assert c != '{' && c != '}' ==> Closing(t, 0) == Some(1);
    assert s[1..1] == "" && s[1..2] == [c] && s[2..] == u && s[3..] == rest;
  }

  /** A piece that was bare reads as its two arguments exactly when neither of its first two
      characters is a closing brace. */
  lemma {:induction false} BraceReadsIff(p: string)
    requires !TooShort(p) && p[0] != '{'
    ensures ReadsAs(Brace(p), p) <==> p[0] != '}' && p[1] != '}'
  {
    hide TakeGroup;
    if p[1] != '{' {
      var rest := "{" + [p[1]] + "}" + p[2..];
      assert Brace(p) == "{" + [p[0]] + "}" + rest;
      TakeSingle(p[0], rest);
      TakeSingle(p[1], p[2..]);
    } else {
      assert Brace(p) == "{" + [p[0]] + "}" + p[1..];
      TakeSingle(p[0], p[1..]);
    }
  }

  /** Piece by piece, what fixing does to the arguments of the fractions: braced pieces stay, and
      bare ones read as their first two arguments, unless a closing brace is among these. */
  lemma {:induction false} FixedArguments(s: string, i: nat)
    requires Fixable(Split(s)) && 0 < i < |Split(s)|
    ensures |Split(Fixed(s))| == |Split(s)| && Split(Fixed(s))[0] == Split(s)[0]
    ensures var p, r := Split(s)[i], Split(Fixed(s))[i];
            if |p| > 0 && p[0] == '{' then r == p
            else |p| >= 2 && (ReadsAs(r, p) <==> p[0] != '}' && p[1] != '}')
  {
    hide ReadsAs, Split, Join;
    FixedPieces(s);
    var p := Split(s)[i];
    assert !TooShort(p);
    if p[0] != '{' { BraceReadsIff(p); }
  }

  /** The braces the code adds do not help there: the first argument of `\frac}2` reads as empty. */
  lemma {:induction false} ClosingBraceMisread()
    ensures TakeGroup(Brace("}2")) == Some(Argument("", "}{2}"))
  {
    TakeSingle('}', "{2}");
    assert "}" + "{2}" == "}{2}";
    assert Brace("}2") == "{" + ['}'] + "}" + "{2}";
  }

  /** Fixing twice is fixing once. */
  lemma {:induction false} Idempotent(s: string)
    ensures Fixed(Fixed(s)) == Fixed(s)
  {
    FixedPieces(s);
    if Fixable(Split(s)) {
      var ps := Split(Fixed(s));
      assert BraceAll(ps) == ps;
      SplitClean(Fixed(s));
    }
  }

  // ---------- only braces are inserted ----------

  function Unbraced(s: string): string {
    if s == [] then [] else (if s[0] == '{' || s[0] == '}' then [] else [s[0]]) + Unbraced(s[1..])
  }

  lemma {:induction false} UnbracedConcat(a: string, b: string)
    ensures Unbraced(a + b) == Unbraced(a) + Unbraced(b)
  {
    if a == [] {
      assert a + b == b;
    } else {
      assert (a + b)[1..] == a[1..] + b;
      UnbracedConcat(a[1..], b);
    }
  }

  lemma {:induction false} UnbracedBrace(sub: string)
    requires !TooShort(sub)
    ensures Unbraced(Brace(sub)) == Unbraced(sub)
  {
    if sub[0] != '{' {
      var a, b, post := [sub[0]], [sub[1]], sub[2..];
      assert sub == a + b + post;
      UnbracedConcat(a + b, post);
      UnbracedConcat(a, b);
      assert Unbraced("{") == "" && Unbraced("}") == "" && Unbraced("}{") == "" by {
        assert "}{"[1..] == "{";
      }
      if sub[1] != '{' {
        UnbracedConcat("{" + a + "}{" + b + "}", post);
        UnbracedConcat("{" + a + "}{" + b, "}");
        UnbracedConcat("{" + a + "}{", b);
        UnbracedConcat("{" + a, "}{");
        UnbracedConcat("{", a);
      } else {
        UnbracedConcat("{" + a + "}" + b, post);
        UnbracedConcat("{" + a + "}", b);
        UnbracedConcat("{" + a, "}");
        UnbracedConcat("{", a);
      }
    }
  }

  lemma {:induction false} UnbracedJoin(ps: seq<string>, qs: seq<string>)
    requires |ps| == |qs| > 0 && forall i :: 0 <= i < |ps| ==> Unbraced(ps[i]) == Unbraced(qs[i])
    ensures Unbraced(Join(ps)) == Unbraced(Join(qs))
  {
    if |ps| > 1 {
      hide Unbraced;
      UnbracedJoin(ps[1..], qs[1..]);
      UnbracedConcat(ps[0] + FRAC, Join(ps[1..]));
      UnbracedConcat(ps[0], FRAC);
      UnbracedConcat(qs[0] + FRAC, Join(qs[1..]));
      UnbracedConcat(qs[0], FRAC);
    }
  }

  /** Up to braces the string is unchanged. */
  lemma {:induction false} OnlyBraces(s: string)
    ensures Unbraced(Fixed(s)) == Unbraced(s)
  {
    if Fixable(Split(s)) {
      hide Unbraced, Brace;
      SplitClean(s);
      var ps := Split(s);
      forall i | 0 <= i < |ps| ensures Unbraced(BraceAll(ps)[i]) == Unbraced(ps[i]) {
        if i > 0 { UnbracedBrace(ps[i]); }
      }
      UnbracedJoin(BraceAll(ps), ps);
    }
  }

  // ---------- the program ----------

  lemma {:induction false} JoinSnoc(ps: seq<string>, p: string)
    requires |ps| > 0
    ensures Join(ps + [p]) == Join(ps) + FRAC + p
  {
    if |ps| > 1 {
      assert (ps + [p])[1..] == ps[1..] + [p];
      JoinSnoc(ps[1..], p);
    } else {
      assert (ps + [p])[1..] == [p];
    }
  }

  /** `_fix_fracs`. */
  method Fix(s: string) returns (r: string)
    ensures r == Fixed(s)
  {
    hide Find, Split, Join;
    var substrs := Split(s);
    var newStr := substrs[0];
    JoinOne(substrs[0]);
    assert BraceAll(substrs[..1]) == [substrs[0]];
    for i := 1 to |substrs|
      invariant Fixable(substrs[..i])
      invariant newStr == Join(BraceAll(substrs[..i]))
    {
      var substr := substrs[i];
      ghost var done := BraceAll(substrs[..i]);
      newStr := newStr + "\\frac";
      if |substr| > 0 && substr[0] == '{' {
        newStr := newStr + substr;
      } else {
        if |substr| < 2 { return s; }
        var a, b := substr[0], substr[1];
        var post := if |substr| > 2 then substr[2..] else "";
        if b != '{' {
          newStr := newStr + ("{" + [a] + "}{" + [b] + "}" + post);
        } else {
          newStr := newStr + ("{" + [a] + "}" + [b] + post);
        }
      }
      JoinSnoc(done, Brace(substr));
      assert BraceAll(substrs[..i + 1]) == done + [Brace(substr)];
    }
    assert substrs[..|substrs|] == substrs;
    r := newStr;
  }

  lemma {:induction false} JoinOne(p: string)
    ensures Join([p]) == p
  {
  }
}
