/** The generated index pages of a bundle (internal/okf/index.go). */
module BundleIndex {
  import opened Wrappers
  import opened Strings

  /** Where the last slash is, or -1. */
  function LastSlash(p: string): (i: int)
    ensures -1 <= i < |p|
    ensures i >= 0 ==> p[i] == '/'
    ensures forall j :: i < j < |p| ==> p[j] != '/'
  {
    if p == "" then -1 else if p[|p| - 1] == '/' then |p| - 1 else LastSlash(p[..|p| - 1])
  }

  /** The parent directory, "" at the root. */
  function PathDir(p: string): (d: string)
    ensures p != "" ==> |d| < |p|
  {
    if LastSlash(p) < 0 then "" else p[..LastSlash(p)]
  }

  /** strings.TrimPrefix */
  function TrimPrefix(s: string, prefix: string): string {
    if prefix <= s then s[|prefix|..] else s
  }

  function RelFrom(dir: string, target: string): string {
    if dir == "" then target else TrimPrefix(target, dir + "/")
  }

  /** What a link on the page of `dir` leads to. */
  function Resolve(dir: string, link: string): string {
    if dir == "" then link else dir + "/" + link
  }

  const INDEX_FILE := "index.md"

  function IndexPath(dir: string): string {
    if dir == "" then INDEX_FILE else dir + "/" + INDEX_FILE
  }

  /** A page: its links, in the order of what they lead to. */
  datatype Page = Page(sections: seq<string>, concepts: seq<string>)

  // ---- what there is to list

  /** `d` is `p` or a directory above it. */
  predicate Above(d: string, p: string)
    decreases |p|
  {
    p == d || (p != "" && Above(d, PathDir(p)))
  }

  ghost predicate HoldsConcept(ids: set<string>, d: string) {
    exists id :: id in ids && Above(d, PathDir(id))
  }

  ghost predicate ChildOf(ids: set<string>, d: string, id: string) {
    id in ids && PathDir(id) == d
  }

  ghost predicate SectionOf(ids: set<string>, d: string, s: string) {
    s != "" && PathDir(s) == d && HoldsConcept(ids, s)
  }

  /** The page of a directory lists exactly its own concepts and its own directories,
      each sorted. */
  ghost predicate PageOk(ids: set<string>, d: string, page: Page) {
    exists sections, children ::
      && StrictlySorted(sections) && StrictlySorted(children)
      && (forall s :: s in sections <==> SectionOf(ids, d, s))
      && (forall id :: id in children <==> ChildOf(ids, d, id))
      && LinksTo(d, page, sections, children)
  }

  ghost predicate LinksTo(d: string, page: Page, sections: seq<string>, children: seq<string>) {
    && |page.sections| == |sections| && |page.concepts| == |children|
    && (forall i :: 0 <= i < |sections| ==> page.sections[i] == RelFrom(d, sections[i] + "/" + INDEX_FILE))
    && (forall i :: 0 <= i < |children| ==> page.concepts[i] == RelFrom(d, children[i]))
  }

  /** The pages written for a set of concepts: one for the root and one for every
      directory with a concept somewhere below it. */
  ghost predicate Indexes(ids: set<string>, written: map<string, Page>) {
    && (forall d :: d in written <==> d == "" || HoldsConcept(ids, d))
    && forall d :: d in written ==> PageOk(ids, d, written[d])
  }

  // ---- links

  lemma PathSplit(p: string)
    ensures LastSlash(p) >= 0 ==> p == PathDir(p) + "/" + p[LastSlash(p) + 1..]
  {
  }

  /** A link to something in the directory, made relative to it, leads there. */
  lemma LinkLeadsThere(p: string, tail: string)
    ensures Resolve(PathDir(p), RelFrom(PathDir(p), p + tail)) == p + tail
  {
    var d := PathDir(p);
    if d != "" {
      PathSplit(p);
      assert d + "/" <= p + tail;
      assert p + tail == (d + "/") + (p + tail)[|d + "/"|..];
    }
  }

  lemma ConceptLink(p: string)
    ensures Resolve(PathDir(p), RelFrom(PathDir(p), p)) == p
  {
    LinkLeadsThere(p, "");
    assert p + "" == p;
  }

  lemma SectionLink(s: string)
    requires s != ""
    ensures Resolve(PathDir(s), RelFrom(PathDir(s), s + "/" + INDEX_FILE)) == IndexPath(s)
  {
    LinkLeadsThere(s, "/" + INDEX_FILE);
    assert s + ("/" + INDEX_FILE) == s + "/" + INDEX_FILE;
  }

  /** Every link of a written page leads to a concept or to a page that is written too. */
  lemma LinksResolve(ids: set<string>, written: map<string, Page>, d: string, i: nat)
    requires Indexes(ids, written) && d in written
    ensures i < |written[d].concepts| ==> Resolve(d, written[d].concepts[i]) in ids
    ensures i < |written[d].sections| ==>
      exists s :: s in written && s != "" && Resolve(d, written[d].sections[i]) == IndexPath(s)
  {
    hide PathDir, RelFrom, Resolve, IndexPath, Above, StrictlySorted;
    var sections, children :|
      && StrictlySorted(sections) && StrictlySorted(children)
      && (forall s :: s in sections <==> SectionOf(ids, d, s))
      && (forall id :: id in children <==> ChildOf(ids, d, id))
      && LinksTo(d, written[d], sections, children);
    if i < |children| {
      assert children[i] in children;
      ConceptLink(children[i]);
    }
    if i < |sections| {
      assert sections[i] in sections;
      SectionLink(sections[i]);
      assert sections[i] in written;
    }
  }

  // ---- reachability

  /** The page of `from` has a link to the page of `to`. */
  ghost predicate LinksPage(written: map<string, Page>, from: string, to: string) {
    && from in written && to in written
    && exists i :: 0 <= i < |written[from].sections| && Resolve(from, written[from].sections[i]) == IndexPath(to)
  }

  /** Pages each of which links to the next. */
  ghost predicate Trail(written: map<string, Page>, path: seq<string>) {
    path != [] && forall i :: 0 <= i < |path| - 1 ==> LinksPage(written, path[i], path[i + 1])
  }

  ghost predicate LinksConcept(written: map<string, Page>, d: string, id: string) {
    && d in written
    && exists i :: 0 <= i < |written[d].concepts| && Resolve(d, written[d].concepts[i]) == id
  }

  lemma {:induction false} AboveUp(d: string, p: string)
    requires Above(d, p) && d != ""
    ensures Above(PathDir(d), p)
    decreases |p|
  {
    hide PathDir;
    if p == d {
      assert Above(PathDir(d), PathDir(p));
    } else {
      AboveUp(d, PathDir(p));
    }
  }

  lemma SectionHeld(ids: set<string>, written: map<string, Page>, d: string)
    requires Indexes(ids, written) && d in written && d != ""
    ensures PathDir(d) in written && LinksPage(written, PathDir(d), d)
  {
    hide PathDir, RelFrom, Resolve, IndexPath, StrictlySorted, Above;
    var up := PathDir(d);
    var id :| id in ids && Above(d, PathDir(id));
    AboveUp(d, PathDir(id));
    assert HoldsConcept(ids, up) && SectionOf(ids, up, d);
    var sections, children :|
      && StrictlySorted(sections) && StrictlySorted(children)
      && (forall s :: s in sections <==> SectionOf(ids, up, s))
      && (forall id :: id in children <==> ChildOf(ids, up, id))
      && LinksTo(up, written[up], sections, children);
    var i :| 0 <= i < |sections| && sections[i] == d;
    SectionLink(d);
    assert Resolve(up, written[up].sections[i]) == IndexPath(d);
  }

  lemma {:induction false} TrailTo(ids: set<string>, written: map<string, Page>, d: string) returns (path: seq<string>)
    requires Indexes(ids, written) && d in written
    ensures Trail(written, path) && path[0] == "" && path[|path| - 1] == d
    decreases |d|
  {
    hide LinksPage, Indexes;
    if d == "" {
      path := [""];
    } else {
      SectionHeld(ids, written, d);
      var up := TrailTo(ids, written, PathDir(d));
      TrailSnoc(written, up, d);
      path := up + [d];
    }
  }

  lemma TrailSnoc(written: map<string, Page>, up: seq<string>, d: string)
    requires Trail(written, up) && LinksPage(written, up[|up| - 1], d)
    ensures Trail(written, up + [d])
  {
    hide LinksPage;
    var path := up + [d];
    forall i | 0 <= i < |path| - 1 ensures LinksPage(written, path[i], path[i + 1]) {
      assert path[i] == up[i];
      if i < |up| - 1 {
        assert LinksPage(written, up[i], up[i + 1]);
      }
    }
  }

  lemma PageListsConcept(ids: set<string>, written: map<string, Page>, id: string)
    requires Indexes(ids, written) && id in ids
    ensures LinksConcept(written, PathDir(id), id)
  {
    hide PathDir, RelFrom, Resolve, IndexPath, StrictlySorted, Above, HoldsConcept, PageOk;
    var d := PathDir(id);
    OwnDirectory(ids, id);
    var sections, children := PageParts(ids, d, written[d]);
    assert id in children;
    var i :| 0 <= i < |children| && children[i] == id;
    ConceptLink(id);
    assert Resolve(d, written[d].concepts[i]) == id;
  }

  lemma OwnDirectory(ids: set<string>, id: string)
    requires id in ids
    ensures HoldsConcept(ids, PathDir(id)) && ChildOf(ids, PathDir(id), id)
  {
    assert Above(PathDir(id), PathDir(id));
    hide PathDir;
  }

  lemma PageParts(ids: set<string>, d: string, page: Page) returns (sections: seq<string>, children: seq<string>)
    requires PageOk(ids, d, page)
    ensures forall s :: s in sections <==> SectionOf(ids, d, s)
    ensures forall id :: id in children <==> ChildOf(ids, d, id)
    ensures LinksTo(d, page, sections, children)
  {
    hide SectionOf, ChildOf, StrictlySorted, LinksTo;
    sections, children :|
      && StrictlySorted(sections) && StrictlySorted(children)
      && (forall s :: s in sections <==> SectionOf(ids, d, s))
      && (forall id :: id in children <==> ChildOf(ids, d, id))
      && LinksTo(d, page, sections, children);
  }

  /** From the root page every concept can be reached by following links. */
  lemma EveryConceptReachable(ids: set<string>, written: map<string, Page>, id: string) returns (path: seq<string>)
    requires Indexes(ids, written) && id in ids
    ensures Trail(written, path) && path[0] == "" && LinksConcept(written, path[|path| - 1], id)
  {
    PageListsConcept(ids, written, id);
    hide Trail, Indexes, PathDir;
    path := TrailTo(ids, written, PathDir(id));
  }

  // ---- the loops

  function Listed(m: map<string, set<string>>, d: string): set<string> {
    if d in m then m[d] else {}
  }

  ghost predicate ChildrenOk(children: map<string, set<string>>, ids: set<string>) {
    forall d, id :: id in Listed(children, d) <==> ChildOf(ids, d, id)
  }

  ghost predicate SubdirsOk(subdirs: map<string, set<string>>, ids: set<string>) {
    forall d, s :: s in Listed(subdirs, d) <==> SectionOf(ids, d, s)
  }

  /** A directory is a key only when it has something to list. */
  ghost predicate NoEmptyEntries(m: map<string, set<string>>) {
    forall d :: d in m ==> m[d] != {}
  }

  lemma {:induction false} AboveShorter(d: string, p: string)
    requires Above(d, p)
    ensures |d| <= |p|
    decreases |p|
  {
    if p != d {
      AboveShorter(d, PathDir(p));
    }
  }

  /** Registers the directories above a concept, each under its parent. */
  method RegisterChain(subdirs: map<string, set<string>>, ghost ids: set<string>, id: string) returns (r: map<string, set<string>>)
    requires SubdirsOk(subdirs, ids) && NoEmptyEntries(subdirs)
    ensures SubdirsOk(r, ids + {id}) && NoEmptyEntries(r)
  {
    r := subdirs;
    var anc := PathDir(id);
    hide PathDir, Above;
    NoneRegistered(subdirs, ids, PathDir(id));
    while anc != ""
      invariant forall d, s :: s in Listed(r, d) <==>
        SectionOf(ids, d, s) || (s != "" && PathDir(s) == d && Registered(s, PathDir(id), anc))
      invariant Above(anc, PathDir(id)) && NoEmptyEntries(r)
      decreases |anc|
    {
      var grand := PathDir(anc);
      RegisterNext(PathDir(id), anc);
      ghost var more := Listed(r, grand) + {anc};
      assert anc in more;
      r := r[grand := Listed(r, grand) + {anc}];
      anc := grand;
    }
    AllRegistered(r, ids, id);
  }

  /** `s` is on the way up from `low` and the walk, now at `anc`, has passed it. */
  ghost predicate Registered(s: string, low: string, anc: string) {
    Above(s, low) && |s| > |anc|
  }

  lemma NoneRegistered(subdirs: map<string, set<string>>, ids: set<string>, low: string)
    requires SubdirsOk(subdirs, ids)
    ensures forall d, s :: s in Listed(subdirs, d) <==> SectionOf(ids, d, s) || (s != "" && PathDir(s) == d && Registered(s, low, low))
    ensures Above(low, low)
  {
    hide PathDir, SectionOf;
    forall s ensures !Registered(s, low, low) {
      if Above(s, low) {
        AboveShorter(s, low);
      }
    }
    hide Above, Registered;
    assert forall d, s :: s in Listed(subdirs, d) <==> SectionOf(ids, d, s);
  }

  lemma {:induction false} ChainOrder(s: string, anc: string, low: string)
    requires Above(s, low) && Above(anc, low)
    ensures |s| <= |anc| <==> Above(s, anc)
    decreases |low|
  {
    if anc == low {
      AboveShorter(s, low);
    } else if s == low {
      AboveShorter(anc, PathDir(low));
      if Above(s, anc) {
        AboveShorter(s, anc);
      }
    } else {
      ChainOrder(s, anc, PathDir(low));
    }
  }

  lemma RegisterNext(low: string, anc: string)
    requires anc != "" && Above(anc, low)
    ensures Above(PathDir(anc), low)
    ensures forall s :: Registered(s, low, PathDir(anc)) <==> Registered(s, low, anc) || s == anc
  {
    AboveUp(anc, low);
    forall s ensures Registered(s, low, PathDir(anc)) <==> Registered(s, low, anc) || s == anc {
      if Above(s, low) {
        ChainOrder(s, anc, low);
        ChainOrder(s, PathDir(anc), low);
      }
    }
  }

  lemma AllRegistered(r: map<string, set<string>>, ids: set<string>, id: string)
    requires forall d, s :: s in Listed(r, d) <==> SectionOf(ids, d, s) || (s != "" && PathDir(s) == d && Registered(s, PathDir(id), ""))
    ensures SubdirsOk(r, ids + {id})
  {
    hide PathDir, Above;
    forall d, s ensures s in Listed(r, d) <==> SectionOf(ids + {id}, d, s) {
      assert HoldsConcept(ids + {id}, s) <==> HoldsConcept(ids, s) || Above(s, PathDir(id));
      assert s in Listed(r, d) <==> SectionOf(ids, d, s) || (s != "" && PathDir(s) == d && Registered(s, PathDir(id), ""));
    }
  }

  lemma ChildrenStep(children: map<string, set<string>>, ids: set<string>, id: string)
    requires ChildrenOk(children, ids) && NoEmptyEntries(children)
    ensures
      var after := children[PathDir(id) := Listed(children, PathDir(id)) + {id}];
      ChildrenOk(after, ids + {id}) && NoEmptyEntries(after)
  {
    hide PathDir;
    var after := children[PathDir(id) := Listed(children, PathDir(id)) + {id}];
    forall d, x ensures x in Listed(after, d) <==> ChildOf(ids + {id}, d, x) {
      assert x in Listed(children, d) <==> ChildOf(ids, d, x);
    }
    assert id in after[PathDir(id)];
  }

  /** One page: the links in sorted order. */
  method WritePage(dir: string, childIds: set<string>, subs: set<string>, ghost ids: set<string>) returns (page: Page)
    requires forall id :: id in childIds <==> ChildOf(ids, dir, id)
    requires forall s :: s in subs <==> SectionOf(ids, dir, s)
    ensures PageOk(ids, dir, page)
  {
    hide RelFrom, StrictlySorted, ChildOf, SectionOf;
    var subList := SortStrings(subs);
    var childList := SortStrings(childIds);
    var sections: seq<string> := [];
    for i := 0 to |subList|
      invariant |sections| == i
      invariant forall j :: 0 <= j < i ==> sections[j] == RelFrom(dir, subList[j] + "/" + INDEX_FILE)
    {
      sections := sections + [RelFrom(dir, subList[i] + "/" + INDEX_FILE)];
    }
    var concepts: seq<string> := [];
    for i := 0 to |childList|
      invariant |concepts| == i
      invariant forall j :: 0 <= j < i ==> concepts[j] == RelFrom(dir, childList[j])
    {
      concepts := concepts + [RelFrom(dir, childList[i])];
    }
    page := Page(sections, concepts);
    assert LinksTo(dir, page, subList, childList);
  }

  /** A directory has something to list exactly when some concept lies below it. */
  lemma DirsAre(children: map<string, set<string>>, subdirs: map<string, set<string>>, ids: set<string>, d: string)
    requires ChildrenOk(children, ids) && SubdirsOk(subdirs, ids)
    ensures Listed(children, d) != {} || Listed(subdirs, d) != {} <==> HoldsConcept(ids, d)
  {
    hide PathDir;
    if Listed(children, d) != {} {
      var id :| id in Listed(children, d);
      assert Above(d, PathDir(id));
    }
    if Listed(subdirs, d) != {} {
      var s :| s in Listed(subdirs, d);
      var id :| id in ids && Above(s, PathDir(id));
      AboveUp(s, PathDir(id));
    }
    if HoldsConcept(ids, d) {
      var id :| id in ids && Above(d, PathDir(id));
      if PathDir(id) == d {
        assert id in Listed(children, d);
      } else {
        var s := Below(d, PathDir(id));
        assert SectionOf(ids, d, s);
        assert s in Listed(subdirs, d);
      }
    }
  }

  /** The directory on the way up from `p` whose parent is `d`. */
  lemma {:induction false} Below(d: string, p: string) returns (s: string)
    requires Above(d, p) && p != d
    ensures s != "" && PathDir(s) == d && Above(s, p)
    decreases |p|
  {
    hide PathDir;
    if PathDir(p) == d {
      s := p;
    } else {
      s := Below(d, PathDir(p));
    }
  }

  /** Groups the concepts by directory, then writes one page for each directory. */
  method WriteIndexes(concepts: seq<string>) returns (written: map<string, Page>)
    ensures Indexes((set id | id in concepts), written)
  {
    var children: map<string, set<string>> := map[];
    var subdirs: map<string, set<string>> := map[];
    ghost var ids: set<string> := {};
    NothingListed();
    hide ChildrenOk, SubdirsOk, PathDir, Listed, NoEmptyEntries;
    for i := 0 to |concepts|
      invariant ids == set j | 0 <= j < i :: concepts[j]
      invariant ChildrenOk(children, ids) && SubdirsOk(subdirs, ids) && NoEmptyEntries(children) && NoEmptyEntries(subdirs)
    {
      var id := concepts[i];
      ChildrenStep(children, ids, id);
      children := children[PathDir(id) := Listed(children, PathDir(id)) + {id}];
      subdirs := RegisterChain(subdirs, ids, id);
      ids := ids + {id};
    }
    assert ids == set id | id in concepts;
    written := WritePages(children, subdirs, ids);
  }

  lemma NothingListed()
    ensures ChildrenOk(map[], {}) && SubdirsOk(map[], {}) && NoEmptyEntries(map[])
  {
  }

  lemma AllDirs(children: map<string, set<string>>, subdirs: map<string, set<string>>, ids: set<string>)
    requires ChildrenOk(children, ids) && SubdirsOk(subdirs, ids) && NoEmptyEntries(children) && NoEmptyEntries(subdirs)
    ensures forall d :: d in {""} + children.Keys + subdirs.Keys <==> d == "" || HoldsConcept(ids, d)
  {
    forall d ensures d in {""} + children.Keys + subdirs.Keys <==> d == "" || HoldsConcept(ids, d) {
      DirsAre(children, subdirs, ids, d);
    }
  }

  lemma AllLists(children: map<string, set<string>>, subdirs: map<string, set<string>>, ids: set<string>)
    requires ChildrenOk(children, ids) && SubdirsOk(subdirs, ids)
    ensures forall d, id :: id in Listed(children, d) <==> ChildOf(ids, d, id)
    ensures forall d, s :: s in Listed(subdirs, d) <==> SectionOf(ids, d, s)
  {
    hide ChildOf, SectionOf;
  }

  method WritePages(children: map<string, set<string>>, subdirs: map<string, set<string>>, ghost ids: set<string>) returns (written: map<string, Page>)
    requires ChildrenOk(children, ids) && SubdirsOk(subdirs, ids) && NoEmptyEntries(children) && NoEmptyEntries(subdirs)
    ensures Indexes(ids, written)
  {
    hide PageOk, ChildrenOk, SubdirsOk, NoEmptyEntries, Listed, HoldsConcept, ChildOf, SectionOf;
    AllDirs(children, subdirs, ids);
    AllLists(children, subdirs, ids);
    var dirs := {""} + children.Keys + subdirs.Keys;
    written := map[];
    var todo := dirs;
    while todo != {}
      invariant todo <= dirs && forall d :: d in written <==> d in dirs && d !in todo
      invariant forall d :: d in written ==> PageOk(ids, d, written[d])
      decreases |todo|
    {
      SomeMember(todo);
      var d :| d in todo;
      todo := todo - {d};
      var page := WritePage(d, Listed(children, d), Listed(subdirs, d), ids);
      written := written[d := page];
    }
  }
}
