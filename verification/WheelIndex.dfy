/** The nightly wheel index (scripts/update_nightly_whl_index.py, `update_wheel_index`): a page
    of links that each run reads back, extends at the front and writes again. */
module WheelIndex {
  import opened Wrappers

  // ---------- lines ----------

  predicate NoNewline(s: string) {
    '\n' !in s
  }

  /** `content.split("\n")`. */
  function Lines(s: string): (r: seq<string>)
    ensures |r| > 0
  {
    if s == [] then [""]
    else
      var rest := Lines(s[1..]);
      if s[0] == '\n' then [""] + rest else [[s[0]] + rest[0]] + rest[1..]
  }

  lemma {:induction false} LinesFirst(line: string, rest: string)
    requires NoNewline(line)
    ensures Lines(line + "\n" + rest) == [line] + Lines(rest)
  {
    var s := line + "\n" + rest;
    if line == [] {
      assert s == "\n" + rest && s[1..] == rest;
    } else {
      assert s[1..] == line[1..] + "\n" + rest;
      LinesFirst(line[1..], rest);
      assert ([line[1..]] + Lines(rest))[1..] == Lines(rest);
      assert [line[0]] + line[1..] == line;
    }
  }

  /** `"\n".join(links) + "\n"`. */
  function Body(links: seq<string>): string {
    if links == [] then "\n"
    else if |links| == 1 then links[0] + "\n"
    else links[0] + "\n" + Body(links[1..])
  }

  const LINK := "<a href="

  predicate IsLink(s: string) {
    LINK <= s
  }

  function Kept(lines: seq<string>): seq<string> {
    if lines == [] then []
    else (if IsLink(lines[0]) then [lines[0]] else []) + Kept(lines[1..])
  }

  predicate LinkLines(links: seq<string>) {
    forall i :: 0 <= i < |links| ==> IsLink(links[i]) && NoNewline(links[i])
  }

  lemma {:induction false} BodyLinks(links: seq<string>)
    requires LinkLines(links)
    ensures Kept(Lines(Body(links))) == links
  {
    if links == [] {
      assert Lines("\n") == ["", ""] by { assert "\n"[1..] == ""; }
      assert ["", ""][1..] == [""] && [""][1..] == [];
    } else if |links| == 1 {
      LinesFirst(links[0], "");
      assert links[0] + "\n" + "" == links[0] + "\n";
      assert ([links[0]] + [""])[1..] == [""] && [""][1..] == [];
    } else {
      LinesFirst(links[0], Body(links[1..]));
      BodyLinks(links[1..]);
      assert ([links[0]] + Lines(Body(links[1..])))[1..] == Lines(Body(links[1..]));
    }
  }

  /** The page as written, and as read back. */
  function Page(cuda: string, links: seq<string>): string {
    "<!DOCTYPE html>" + "\n" + (("<h1>SGLang Nightly Wheels (" + cuda + ")</h1>") + "\n" + Body(links))
  }

  function Links(page: string): seq<string> {
    Kept(Lines(page))
  }

  lemma {:induction false} NotInConcat(a: string, b: string)
    requires NoNewline(a) && NoNewline(b)
    ensures NoNewline(a + b)
  {
  }

  /** Writing and reading back returns exactly the links. */
  lemma {:induction false} PageRoundTrip(cuda: string, links: seq<string>)
    requires NoNewline(cuda) && LinkLines(links)
    ensures Links(Page(cuda, links)) == links
  {
    var first, head := "<!DOCTYPE html>", "<h1>SGLang Nightly Wheels (" + cuda + ")</h1>";
    NotInConcat("<h1>SGLang Nightly Wheels (", cuda);
    NotInConcat("<h1>SGLang Nightly Wheels (" + cuda, ")</h1>");
    assert first[1] == '!' && head[1] == 'h';
    hide Lines, Body, Kept;
    LinesFirst(first, head + "\n" + Body(links));
    LinesFirst(head, Body(links));
    BodyLinks(links);
    SkipLine(first, [head] + Lines(Body(links)));
    SkipLine(head, Lines(Body(links)));
  }

  lemma {:induction false} BodyLines(links: seq<string>)
    requires links != [] && forall i :: 0 <= i < |links| ==> NoNewline(links[i])
    ensures Lines(Body(links)) == links + [""]
  {
    hide Lines, NoNewline;
    if |links| == 1 {
      LinesFirst(links[0], "");
      assert links[0] + "\n" + "" == links[0] + "\n";
      assert Lines("") == [""] by { LinesEmpty(); }
    } else {
      LinesFirst(links[0], Body(links[1..]));
      BodyLines(links[1..]);
    }
  }

  lemma {:induction false} LinesEmpty()
    ensures Lines("") == [""]
  {
  }

  /** Line by line: the document type, a heading, then one link a line and nothing else. */
  lemma {:induction false} PageLines(cuda: string, links: seq<string>)
    requires NoNewline(cuda) && links != [] && forall i :: 0 <= i < |links| ==> NoNewline(links[i])
    ensures Lines(Page(cuda, links)) ==
            ["<!DOCTYPE html>", "<h1>SGLang Nightly Wheels (" + cuda + ")</h1>"] + links + [""]
  {
    var first, head := "<!DOCTYPE html>", "<h1>SGLang Nightly Wheels (" + cuda + ")</h1>";
    NotInConcat("<h1>SGLang Nightly Wheels (", cuda);
    NotInConcat("<h1>SGLang Nightly Wheels (" + cuda, ")</h1>");
    hide Lines, Body;
    LinesFirst(first, head + "\n" + Body(links));
    LinesFirst(head, Body(links));
    BodyLines(links);
  }

  lemma {:induction false} SkipLine(line: string, rest: seq<string>)
    requires |line| > 1 && line[1] != 'a'
    ensures Kept([line] + rest) == Kept(rest)
  {
    assert LINK[1] == 'a';
    assert ([line] + rest)[1..] == rest;
  }

  // ---------- the file name of a link ----------

  /** The text up to the next "<". */
  function Upto(s: string): (r: string)
    ensures |r| <= |s| && s[..|r|] == r && '<' !in r
    ensures |r| < |s| ==> s[|r|] == '<'
  {
    if s == [] || s[0] == '<' then "" else [s[0]] + Upto(s[1..])
  }

  predicate EndsWhl(name: string) {
    |name| >= 5 && name[|name| - 4..] == ".whl"
  }

  /** `re.search(r">([^<]+\.whl)</a>", link)`: the leftmost match. A match cannot run past a "<",
      so at each ">" there is one candidate. */
  function FileName(link: string): (r: Option<string>) {
    if link == [] then None
    else
      var name := Upto(link[1..]);
      if link[0] == '>' && EndsWhl(name) && "</a>" <= link[1 + |name|..] then Some(name)
      else FileName(link[1..])
  }

  predicate Plain(s: string) {
    '<' !in s && '>' !in s && '\n' !in s
  }

  /** A wheel of a run: its file name and the address it is published at. */
  datatype Wheel = Wheel(name: string, url: string)

  ghost predicate GoodWheel(w: Wheel) {
    Plain(w.name) && Plain(w.url) && EndsWhl(w.name)
  }

  function LinkTo(w: Wheel): string {
    "<a href=\"" + w.url + "\">" + w.name + "</a><br>"
  }

  lemma {:induction false} SkipPlain(a: string, b: string)
    requires '>' !in a
    ensures FileName(a + b) == FileName(b)
  {
    if a == [] {
      assert a + b == b;
    } else {
      assert (a + b)[0] == a[0] && (a + b)[1..] == a[1..] + b;
      SkipPlain(a[1..], b);
    }
  }

  lemma {:induction false} UptoPlain(a: string, b: string)
    requires '<' !in a && |b| > 0 && b[0] == '<'
    ensures Upto(a + b) == a
  {
    if a == [] {
      assert a + b == b;
    } else {
      assert (a + b)[0] == a[0] && (a + b)[1..] == a[1..] + b;
      UptoPlain(a[1..], b);
    }
  }

  lemma {:induction false} NameInLink(name: string)
    requires Plain(name) && EndsWhl(name)
    ensures FileName(">" + (name + "</a><br>")) == Some(name)
  {
    hide Upto, EndsWhl;
    var b := ">" + (name + "</a><br>");
    UptoPlain(name, "</a><br>");
    assert b[1..] == name + "</a><br>";
    assert b[1 + |name|..] == "</a><br>";
  }

  lemma {:induction false} LinkShape(url: string, rest: string)
    requires NoNewline(url) && NoNewline(rest)
    ensures IsLink("<a href=\"" + url + "\"" + rest) && NoNewline("<a href=\"" + url + "\"" + rest)
  {
    var a := "<a href=\"";
    assert a[..8] == LINK;
    assert (a + url + "\"" + rest)[..8] == LINK;
    NotInConcat(a, url);
    NotInConcat(a + url, "\"");
    NotInConcat(a + url + "\"", rest);
  }

  /** The name extracted from a generated link is the wheel's own. */
  lemma {:induction false} LinkRoundTrip(w: Wheel)
    requires GoodWheel(w)
    ensures FileName(LinkTo(w)) == Some(w.name)
    ensures IsLink(LinkTo(w)) && NoNewline(LinkTo(w))
  {
    hide FileName, EndsWhl, IsLink;
    var a, b := "<a href=\"" + w.url + "\"", ">" + (w.name + "</a><br>");
    assert LinkTo(w) == a + b;
    assert '>' !in a && NoNewline(b);
    SkipPlain(a, b);
    NameInLink(w.name);
    LinkShape(w.url, b);
  }

  /** The text up to the next quote. */
  function UptoQuote(s: string): (r: string)
    ensures '"' !in r && r <= s
  {
    if s == [] || s[0] == '"' then "" else [s[0]] + UptoQuote(s[1..])
  }

  /** The address a link leads to, as a browser or an installer reads it. */
  function Href(link: string): Option<string> {
    if "<a href=\"" <= link then Some(UptoQuote(link[9..])) else None
  }

  lemma {:induction false} UptoQuoteAll(a: string, b: string)
    requires '"' !in a && |b| > 0 && b[0] == '"'
    ensures UptoQuote(a + b) == a
  {
    if a == [] {
      assert a + b == b;
    } else {
      assert (a + b)[0] == a[0] && (a + b)[1..] == a[1..] + b;
      UptoQuoteAll(a[1..], b);
    }
  }

  /** A generated link leads to the wheel's address, if and only if that has no quote in it. */
  lemma {:induction false} HrefRoundTripIff(w: Wheel)
    ensures Href(LinkTo(w)) == Some(w.url) <==> '"' !in w.url
  {
    hide UptoQuote;
    var a, b := "<a href=\"", "\">" + w.name + "</a><br>";
    assert LinkTo(w) == a + (w.url + b) && LinkTo(w)[9..] == w.url + b;
    if '"' !in w.url { UptoQuoteAll(w.url, b); }
  }

  // ---------- merging ----------

  function Names(ls: seq<string>): set<string> {
    if ls == [] then {}
    else (if FileName(ls[0]).Some? then {FileName(ls[0]).value} else {}) + Names(ls[1..])
  }

  /** Links whose name is new, in order; links without a name are dropped. */
  function Unique(ls: seq<string>, seen: set<string>): seq<string> {
    if ls == [] then []
    else
      match FileName(ls[0])
      case None => Unique(ls[1..], seen)
      case Some(name) =>
        if name in seen then Unique(ls[1..], seen)
        else [ls[0]] + Unique(ls[1..], seen + {name})
  }

  lemma {:induction false} UniqueConcat(a: seq<string>, b: seq<string>, seen: set<string>)
    ensures Unique(a + b, seen) == Unique(a, seen) + Unique(b, seen + Names(a))
  {
    hide FileName;
    if a == [] {
      assert a + b == b && seen + Names(a) == seen;
    } else {
      assert (a + b)[0] == a[0] && (a + b)[1..] == a[1..] + b;
      match FileName(a[0]) {
        case None =>
          UniqueConcat(a[1..], b, seen);
          assert seen + Names(a) == seen + Names(a[1..]);
        case Some(name) =>
          if name in seen {
            UniqueConcat(a[1..], b, seen);
            assert seen + Names(a) == seen + Names(a[1..]);
          } else {
            UniqueConcat(a[1..], b, seen + {name});
            assert seen + Names(a) == seen + {name} + Names(a[1..]);
            assert [a[0]] + Unique(a[1..], seen + {name}) + Unique(b, seen + Names(a)) == Unique(a, seen) + Unique(b, seen + Names(a));
          }
      }
    }
  }

  /** Filtering twice is filtering once, by both sets of names. */
  lemma {:induction false} UniqueTwice(b: seq<string>, t: set<string>, s: set<string>)
    ensures Unique(Unique(b, t), s) == Unique(b, s + t)
  {
    hide FileName;
    if b != [] {
      match FileName(b[0]) {
        case None => UniqueTwice(b[1..], t, s);
        case Some(name) =>
          if name in t {
            UniqueTwice(b[1..], t, s);
          } else {
            var rest := Unique(b[1..], t + {name});
            assert ([b[0]] + rest)[1..] == rest;
            if name in s {
              UniqueTwice(b[1..], t + {name}, s);
              assert s + (t + {name}) == s + t;
            } else {
              UniqueTwice(b[1..], t + {name}, s + {name});
              assert s + {name} + (t + {name}) == s + t + {name};
            }
          }
      }
    }
  }

  /** What is in the merged list: for each name not seen before, its first link. */
  lemma {:induction false} UniqueFirst(ls: seq<string>, seen: set<string>, i: nat, name: string)
    requires i < |ls| && FileName(ls[i]) == Some(name) && name !in seen
    requires forall k :: 0 <= k < i ==> FileName(ls[k]) != Some(name)
    ensures ls[i] in Unique(ls, seen)
  {
    hide FileName;
    if i > 0 {
      match FileName(ls[0]) {
        case None => UniqueFirst(ls[1..], seen, i - 1, name);
        case Some(other) =>
          assert FileName(ls[0]) != Some(name);
          UniqueFirst(ls[1..], if other in seen then seen else seen + {other}, i - 1, name);
      }
    }
  }

  /** No name comes twice, and none comes from the seen ones. */
  lemma {:induction false} UniqueNames(ls: seq<string>, seen: set<string>)
    ensures forall i :: 0 <= i < |Unique(ls, seen)| ==>
              FileName(Unique(ls, seen)[i]).Some? && FileName(Unique(ls, seen)[i]).value !in seen
    ensures forall i, j :: 0 <= i < j < |Unique(ls, seen)| ==> FileName(Unique(ls, seen)[i]) != FileName(Unique(ls, seen)[j])
    ensures forall i :: 0 <= i < |Unique(ls, seen)| ==> Unique(ls, seen)[i] in ls
  {
    hide FileName;
    if ls != [] {
      match FileName(ls[0]) {
        case None => UniqueNames(ls[1..], seen);
        case Some(name) =>
          if name in seen { UniqueNames(ls[1..], seen); } else { UniqueNames(ls[1..], seen + {name}); }
      }
    }
  }

  // ---------- runs ----------

  function NewLinks(ws: seq<Wheel>): (r: seq<string>)
    ensures |r| == |ws| && forall i :: 0 <= i < |ws| ==> r[i] == LinkTo(ws[i])
  {
    seq(|ws|, i requires 0 <= i < |ws| => LinkTo(ws[i]))
  }

  /** The links after a run that publishes `ws` on top of `existing`. */
  function Merged(ws: seq<Wheel>, existing: seq<string>): seq<string> {
    Unique(NewLinks(ws) + existing, {})
  }

  /** The links of all runs, latest run first. */
  function LatestFirst(runs: seq<seq<Wheel>>): seq<string> {
    if runs == [] then [] else NewLinks(runs[|runs| - 1]) + LatestFirst(runs[..|runs| - 1])
  }

  /** The index after a sequence of runs, starting from none. */
  function After(runs: seq<seq<Wheel>>): seq<string> {
    if runs == [] then [] else Merged(runs[|runs| - 1], After(runs[..|runs| - 1]))
  }

  /** Merging run by run is merging everything at once: nothing depends on when it was merged. */
  lemma {:induction false} AfterIsMerge(runs: seq<seq<Wheel>>)
    ensures After(runs) == Unique(LatestFirst(runs), {})
  {
    if runs != [] {
      hide Unique;
      var n := |runs| - 1;
      var ws, prior := NewLinks(runs[n]), LatestFirst(runs[..n]);
      AfterIsMerge(runs[..n]);
      UniqueConcat(ws, Unique(prior, {}), {});
      UniqueTwice(prior, {}, {} + Names(ws));
      assert {} + Names(ws) + {} == {} + Names(ws);
      UniqueConcat(ws, prior, {});
    }
  }

  /** Publishing the same wheels again changes nothing. */
  lemma {:induction false} RepeatChangesNothing(runs: seq<seq<Wheel>>, ws: seq<Wheel>)
    ensures After(runs + [ws] + [ws]) == After(runs + [ws])
  {
    hide Unique, LatestFirst;
    var once := runs + [ws];
    assert (once + [ws])[..|once|] == once && once[..|runs|] == runs;
    var now, prior := NewLinks(ws), After(runs);
    assert After(once) == Unique(now + prior, {});
    assert After(once + [ws]) == Unique(now + Unique(now + prior, {}), {});
    UniqueConcat(now, Unique(now + prior, {}), {});
    UniqueTwice(now + prior, {}, {} + Names(now));
    UniqueConcat(now, prior, {});
    UniqueConcat(now, prior, {} + Names(now) + {});
    UniqueSeen(now, {} + Names(now) + {});
    assert {} + Names(now) + {} + Names(now) == {} + Names(now);
  }

  lemma {:induction false} UniqueSeen(ls: seq<string>, seen: set<string>)
    requires Names(ls) <= seen
    ensures Unique(ls, seen) == []
  {
    if ls != [] { UniqueSeen(ls[1..], seen); }
  }

  /** `name` was last published by run `r`, as wheel `i` of that run. */
  ghost predicate LastPublished(runs: seq<seq<Wheel>>, r: nat, i: nat, name: string) {
    && r < |runs| && i < |runs[r]| && runs[r][i].name == name
    && (forall k :: 0 <= k < i ==> runs[r][k].name != name)
    && (forall q, k :: r < q < |runs| && 0 <= k < |runs[q]| ==> runs[q][k].name != name)
  }

  ghost predicate AllGood(runs: seq<seq<Wheel>>) {
    forall r, k :: 0 <= r < |runs| && 0 <= k < |runs[r]| ==> GoodWheel(runs[r][k])
  }

  /** Where the last link of a name stands among all links, latest first. */
  lemma {:induction false} LatestPosition(runs: seq<seq<Wheel>>, r: nat, i: nat, name: string) returns (p: nat)
    requires AllGood(runs) && LastPublished(runs, r, i, name)
    ensures p < |LatestFirst(runs)| && LatestFirst(runs)[p] == LinkTo(runs[r][i])
    ensures forall k :: 0 <= k < p ==> FileName(LatestFirst(runs)[k]) != Some(name)
  {
    hide FileName, LinkTo, GoodWheel;
    var n := |runs| - 1;
    var now := NewLinks(runs[n]);
    forall k | 0 <= k < |now| ensures FileName(now[k]) == Some(runs[n][k].name) {
      LinkRoundTrip(runs[n][k]);
    }
    if r == n {
      p := i;
    } else {
      p := LatestPosition(runs[..n], r, i, name);
      p := p + |now|;
    }
  }

  /** After any sequence of runs every published file name is in the index once, with the link
      of the latest run that published it, and nothing else is there. */
  lemma {:induction false} IndexHoldsLatest(runs: seq<seq<Wheel>>, r: nat, i: nat, name: string)
    requires AllGood(runs) && LastPublished(runs, r, i, name)
    ensures LinkTo(runs[r][i]) in After(runs)
    ensures forall k :: 0 <= k < |After(runs)| && FileName(After(runs)[k]) == Some(name) ==> After(runs)[k] == LinkTo(runs[r][i])
    ensures forall j, k :: 0 <= j < k < |After(runs)| ==> FileName(After(runs)[j]) != FileName(After(runs)[k])
    ensures Href(LinkTo(runs[r][i])) == Some(runs[r][i].url) <==> '"' !in runs[r][i].url
  {
    HrefRoundTripIff(runs[r][i]);
    hide FileName, LinkTo, Unique, LatestFirst, GoodWheel, Href;
    AfterIsMerge(runs);
    var all := LatestFirst(runs);
    var p := LatestPosition(runs, r, i, name);
    LinkRoundTrip(runs[r][i]);
    UniqueFirst(all, {}, p, name);
    UniqueNames(all, {});
  }

  lemma {:induction false} AfterLines(runs: seq<seq<Wheel>>)
    requires AllGood(runs)
    ensures LinkLines(After(runs))
  {
    if runs != [] {
      hide FileName, LinkTo, Unique, IsLink, GoodWheel;
      var n := |runs| - 1;
      AfterLines(runs[..n]);
      var all := NewLinks(runs[n]) + After(runs[..n]);
      forall k | 0 <= k < |all| ensures IsLink(all[k]) && NoNewline(all[k]) {
        if k < |runs[n]| { LinkRoundTrip(runs[n][k]); }
      }
      UniqueNames(all, {});
    }
  }

  // ---------- the program ----------

  /** `update_wheel_index` on the package page: `page` is the file's content, if there is one. */
  method Update(page: Option<string>, cuda: string, wheels: seq<Wheel>) returns (r: Result<string, string>)
    ensures r.Failure? <==> wheels == []
    ensures r.Success? ==> r.value == Page(cuda, Merged(wheels, if page.Some? then Links(page.value) else []))
  {
    hide Lines, Kept, FileName, Page, LinkTo, Body;
    var existing := [];
    if page.Some? { existing := Links(page.value); }
    var newLinks := [];
    for i := 0 to |wheels|
      invariant newLinks == NewLinks(wheels)[..i]
    {
      newLinks := newLinks + [LinkTo(wheels[i])];
    }
    assert newLinks == NewLinks(wheels);
    if newLinks == [] { return Failure("no wheels"); }
    var all := newLinks + existing;
    var seen: set<string> := {};
    var unique: seq<string> := [];
    assert all[0..] == all;
    for i := 0 to |all|
      invariant unique + Unique(all[i..], seen) == Unique(all, {})
    {
      assert all[i..][1..] == all[i + 1..];
      var name := FileName(all[i]);
      if name.Some? && name.value !in seen {
        seen := seen + {name.value};
        unique := unique + [all[i]];
      }
    }
    assert all[|all|..] == [] && unique + [] == unique;
    r := Success(Page(cuda, unique));
  }

  /** Run after run on the same file, the page holds the index of all runs so far. */
  lemma {:induction false} PageAfterRun(cuda: string, runs: seq<seq<Wheel>>, ws: seq<Wheel>)
    requires NoNewline(cuda) && AllGood(runs + [ws])
    ensures Merged(ws, Links(Page(cuda, After(runs)))) == After(runs + [ws])
  {
    hide Links, Page, Merged, GoodWheel;
    assert (runs + [ws])[..|runs|] == runs;
    assert AllGood(runs) by {
      forall r, k | 0 <= r < |runs| && 0 <= k < |runs[r]| ensures GoodWheel(runs[r][k]) {
        assert GoodWheel((runs + [ws])[r][k]);
      }
    }
    AfterLines(runs);
    PageRoundTrip(cuda, After(runs));
  }
}
