/** When discovery succeeds: which pages make a pass, what catalog they give, and the one refresh after a
    change of the catalog (src/mcp-stdio-proxy.ts). */
module StdioDiscovery {
  import opened Common
  import opened StdioSession

  // ----- the catalog of a pass -----

  /** Every tool has a name, and an object for its input schema; no name comes twice. */
  predicate WellListed(tools: seq<Tool>) {
    && (forall k :: 0 <= k < |tools| ==> tools[k].name.Some? && tools[k].schema.Some?)
    && (forall j, k :: 0 <= j < k < |tools| ==> tools[j].name != tools[k].name)
  }

  predicate Fresh(catalog: Catalog, tools: seq<Tool>) {
    forall k :: 0 <= k < |tools| && tools[k].name.Some? ==> tools[k].name.value !in catalog
  }

  /** The catalog holds the tools of the sequence and no others, with their schemas. */
  predicate Catalogues(catalog: Catalog, tools: seq<Tool>) {
    && (forall k :: 0 <= k < |tools| ==> Lists(catalog, tools[k]))
    && (forall name :: name in catalog ==> exists k :: 0 <= k < |tools| && tools[k].name == Some(name))
  }

  /** All that is in a longer catalog is in the shorter one or in the sequence. */
  predicate Adds(catalog: Catalog, tools: seq<Tool>, all: Catalog) {
    && (forall k :: 0 <= k < |tools| ==> Lists(all, tools[k]))
    && (forall name :: name in all ==> name in catalog || exists k :: 0 <= k < |tools| && tools[k].name == Some(name))
  }

  lemma {:induction false} AddToolsExactly(catalog: Catalog, tools: seq<Tool>)
    ensures AddTools(catalog, tools).Some? <==> WellListed(tools) && Fresh(catalog, tools)
    ensures AddTools(catalog, tools).Some? ==> Adds(catalog, tools, AddTools(catalog, tools).value)
    decreases |tools|
  {
    if tools != [] && tools[0].name.Some? && tools[0].schema.Some? && tools[0].name.value !in catalog {
      var first := tools[0];
      var next := catalog[first.name.value := first.schema.value];
      AddToolsExactly(next, tools[1..]);
      FirstFresh(catalog, tools);
      if AddTools(catalog, tools).Some? {
        AddToolsLists(catalog, tools);
        AddsFirst(catalog, tools, AddTools(catalog, tools).value);
      }
    }
  }

  lemma FirstFresh(catalog: Catalog, tools: seq<Tool>)
    requires tools != [] && tools[0].name.Some? && tools[0].schema.Some? && tools[0].name.value !in catalog
    ensures var next := catalog[tools[0].name.value := tools[0].schema.value];
            WellListed(tools) && Fresh(catalog, tools) <==> WellListed(tools[1..]) && Fresh(next, tools[1..])
  {
    var next := catalog[tools[0].name.value := tools[0].schema.value];
    var rest := tools[1..];
    assert forall k :: 0 < k < |tools| ==> rest[k - 1] == tools[k];
    if WellListed(tools) && Fresh(catalog, tools) {
      forall k | 0 <= k < |rest|
        ensures rest[k].name.Some? && rest[k].schema.Some? && rest[k].name.value !in next
      {
        assert rest[k] == tools[k + 1];
      }
    }
  }

  lemma AddsFirst(catalog: Catalog, tools: seq<Tool>, all: Catalog)
    requires tools != [] && tools[0].name.Some? && tools[0].schema.Some?
    requires Adds(catalog[tools[0].name.value := tools[0].schema.value], tools[1..], all)
    requires forall k :: 0 <= k < |tools| ==> Lists(all, tools[k])
    ensures Adds(catalog, tools, all)
  {
    forall name | name in all && name !in catalog
      ensures exists k :: 0 <= k < |tools| && tools[k].name == Some(name)
    {
      if tools[0].name != Some(name) {
        var k :| 0 <= k < |tools| - 1 && tools[1..][k].name == Some(name);
        assert tools[k + 1].name == Some(name);
      }
    }
  }

  lemma {:induction false} AddToolsInParts(catalog: Catalog, a: seq<Tool>, b: seq<Tool>)
    ensures AddTools(catalog, a + b) ==
              if AddTools(catalog, a).None? then None else AddTools(AddTools(catalog, a).value, b)
    decreases |a|
  {
    if a == [] {
      assert a + b == b;
    } else {
      assert (a + b)[1..] == a[1..] + b && (a + b)[0] == a[0];
      if a[0].name.Some? && a[0].schema.Some? && a[0].name.value !in catalog {
        AddToolsInParts(catalog[a[0].name.value := a[0].schema.value], a[1..], b);
      }
    }
  }

  // ----- the pages of a pass -----

  predicate PageOk(reply: PageReply) { reply.Page? && |reply.tools| <= 256 }

  function NextOf(reply: PageReply): Cursor { if reply.Page? then reply.next else BadCursor }

  /** All tools of the replies first..end, in order. */
  function Listed(replies: Replies, first: nat, end: nat): seq<Tool>
    requires first <= end
    decreases end - first
  {
    if first == end then []
    else (if replies(first).Page? then replies(first).tools else []) + Listed(replies, first + 1, end)
  }

  predicate CursorOk(cursor: Cursor, seen: set<string>) {
    cursor.At? && |cursor.text| <= 2048 && cursor.text !in seen
  }

  /** The replies first..end are pages of at most 256 tools; the last gives no cursor, and every other one a
      cursor of at most 2048 characters that was not given before. */
  ghost predicate PagesLinked(replies: Replies, first: nat, end: nat, seen: set<string>) {
    && first < end
    && (forall i {:trigger PageOk(replies(i))} :: first <= i < end ==> PageOk(replies(i)))
    && NextOf(replies(end - 1)) == NoCursor
    && (forall i {:trigger CursorOk(NextOf(replies(i)), seen)} :: first <= i < end - 1 ==> CursorOk(NextOf(replies(i)), seen))
    && (forall i, j {:trigger NextOf(replies(i)), NextOf(replies(j))} :: first <= i < j < end - 1 ==> NextOf(replies(i)) != NextOf(replies(j)))
  }

  /** One page and the rest of the pass. */
  lemma FirstPage(replies: Replies, first: nat, end: nat, seen: set<string>)
    ensures PagesLinked(replies, first, end, seen) <==>
              && first < end && PageOk(replies(first))
              && if end == first + 1 then NextOf(replies(first)) == NoCursor
                 else CursorOk(NextOf(replies(first)), seen)
                      && PagesLinked(replies, first + 1, end, seen + {NextOf(replies(first)).text})
  {
    hide PageOk;
    if first + 1 < end {
      if PagesLinked(replies, first, end, seen) {
        assert CursorOk(NextOf(replies(first)), seen);
        RestLinked(replies, first, end, seen);
      }
      if PageOk(replies(first)) && CursorOk(NextOf(replies(first)), seen)
         && PagesLinked(replies, first + 1, end, seen + {NextOf(replies(first)).text}) {
        WholeLinked(replies, first, end, seen);
      }
    }
  }

  lemma RestLinked(replies: Replies, first: nat, end: nat, seen: set<string>)
    requires first + 1 < end && PagesLinked(replies, first, end, seen) && NextOf(replies(first)).At?
    ensures PagesLinked(replies, first + 1, end, seen + {NextOf(replies(first)).text})
  {
    hide PageOk;
    var more := seen + {NextOf(replies(first)).text};
    forall i | first + 1 <= i < end - 1
      ensures CursorOk(NextOf(replies(i)), more)
    {
      assert PageOk(replies(i)) && CursorOk(NextOf(replies(i)), seen);
      assert NextOf(replies(first)) != NextOf(replies(i));
    }
  }

  lemma WholeLinked(replies: Replies, first: nat, end: nat, seen: set<string>)
    requires first + 1 < end && PageOk(replies(first)) && CursorOk(NextOf(replies(first)), seen)
    requires PagesLinked(replies, first + 1, end, seen + {NextOf(replies(first)).text})
    ensures PagesLinked(replies, first, end, seen)
  {
    hide PageOk;
    var more := seen + {NextOf(replies(first)).text};
    forall i | first <= i < end
      ensures PageOk(replies(i))
    {
    }
    forall i | first <= i < end - 1
      ensures PageOk(replies(i)) && CursorOk(NextOf(replies(i)), seen)
      ensures i > first ==> NextOf(replies(first)) != NextOf(replies(i))
    {
      if i > first { assert CursorOk(NextOf(replies(i)), more); }
    }
  }

  /** A pass from its (4 - left)-th page on is done exactly with linked pages whose tools are well-formed
      and new. */
  lemma {:induction false} PagesExactly(replies: Replies, asked: nat, left: nat, catalog: Catalog, seen: set<string>, all: Catalog, end: nat)
    ensures Pages(replies, asked, left, catalog, seen) == PassDone(all, end) <==>
              && end <= asked + left && PagesLinked(replies, asked, end, seen)
              && AddTools(catalog, Listed(replies, asked, end)) == Some(all)
    decreases left
  {
    hide PagesLinked, AddTools;
    FirstPage(replies, asked, end, seen);
    CursorKinds(NextOf(replies(asked)));
    ReplyKinds(replies(asked));
    if left > 0 && PageOk(replies(asked)) {
      var page := replies(asked);
      if asked < end { AddToolsInParts(catalog, page.tools, Listed(replies, asked + 1, end)); }
      var grown := AddTools(catalog, page.tools);
      if grown.Some? {
        OnePage(replies, asked, end, catalog);
        if CursorOk(page.next, seen) {
          FirstPage(replies, asked + 1, end, seen + {page.next.text});
          PagesExactly(replies, asked + 1, left - 1, grown.value, seen + {page.next.text}, all, end);
        }
      }
    }
  }

  lemma CursorKinds(c: Cursor)
    ensures c == NoCursor || c == BadCursor || c == At(if c.At? then c.text else "")
  {
  }

  lemma ReplyKinds(r: PageReply)
    ensures r.ControlFailed? || r.NotACatalog? || r.Page?
  {
  }

  lemma OnePage(replies: Replies, asked: nat, end: nat, catalog: Catalog)
    requires replies(asked).Page?
    ensures end == asked + 1 ==> Listed(replies, asked, end) == replies(asked).tools
  {
    if end == asked + 1 { assert Listed(replies, asked + 1, end) == []; }
  }

  /** A full pass: its pages, at most four of them, and the catalog they give. */
  ghost predicate FullPass(replies: Replies, first: nat, end: nat, catalog: Catalog) {
    && end <= first + 4 && PagesLinked(replies, first, end, {})
    && WellListed(Listed(replies, first, end)) && Catalogues(catalog, Listed(replies, first, end))
  }

  lemma PassExactly(replies: Replies, first: nat, end: nat, catalog: Catalog)
    ensures Pages(replies, first, 4, map[], {}) == PassDone(catalog, end) <==> FullPass(replies, first, end, catalog)
  {
    hide Pages, PagesLinked, AddTools, WellListed;
    PagesExactly(replies, first, 4, map[], {}, catalog, end);
    if first < end {
      var tools := Listed(replies, first, end);
      AddToolsExactly(map[], tools);
      assert Fresh(map[], tools);
      if WellListed(tools) {
        var all := AddTools(map[], tools).value;
        assert Catalogues(all, tools);
        if Catalogues(catalog, tools) { CatalogIsUnique(tools, catalog, all); }
      }
    } else {
      NotLinked(replies, first, end);
    }
  }

  lemma NotLinked(replies: Replies, first: nat, end: nat)
    requires end <= first
    ensures !PagesLinked(replies, first, end, {})
  {
  }

  lemma CatalogIsUnique(tools: seq<Tool>, a: Catalog, b: Catalog)
    requires Catalogues(a, tools) && Catalogues(b, tools)
    ensures a == b
  {
    forall name | name in a
      ensures name in b && a[name] == b[name]
    {
      var k :| 0 <= k < |tools| && tools[k].name == Some(name);
      assert Lists(a, tools[k]) && Lists(b, tools[k]);
    }
    forall name | name in b
      ensures name in a
    {
      var k :| 0 <= k < |tools| && tools[k].name == Some(name);
      assert Lists(a, tools[k]);
    }
  }

  // ----- discovery -----

  /** Every configured tool is listed with its pinned schema. */
  predicate Confirms(catalog: Catalog, pins: Catalog) {
    pins.Keys <= catalog.Keys && forall name :: name in pins ==> pins[name] == catalog[name]
  }

  /** No change of the catalog was announced while the requests first..end were answered. */
  ghost predicate Quiet(changes: Changes, first: nat, end: nat) {
    forall i :: first <= i < end ==> changes(i) == 0
  }

  lemma {:induction false} QuietIsUnannounced(changes: Changes, first: nat, end: nat)
    requires first <= end
    ensures Announced(changes, first, end) == 0 <==> Quiet(changes, first, end)
    decreases end
  {
    if first < end {
      QuietIsUnannounced(changes, first, end - 1);
      if Quiet(changes, first, end) { assert changes(end - 1) == 0; }
    }
  }

  /** A pass that confirms the pins. */
  ghost predicate Confirmed(replies: Replies, pins: Catalog, first: nat, end: nat, catalog: Catalog) {
    FullPass(replies, first, end, catalog) && Confirms(catalog, pins)
  }

  lemma ConfirmedIsPinned(catalog: Catalog, pins: Catalog)
    ensures Pinned(catalog, pins) <==> Confirms(catalog, pins)
  {
  }

  lemma {:induction false} OnePass(replies: Replies, changes: Changes, pins: Catalog, asked: nat, refreshes: nat,
                                   catalog: Catalog, end: nat)
    ensures Discover(replies, changes, pins, asked, refreshes) == Discovered(catalog, end) <==>
              || (Confirmed(replies, pins, asked, end, catalog) && Quiet(changes, asked, end))
              || (&& refreshes > 0
                  && exists first, n: nat :: Confirmed(replies, pins, asked, n, first) && !Quiet(changes, asked, n)
                       && Discover(replies, changes, pins, n, refreshes - 1) == Discovered(catalog, end))
  {
    hide Pages, Announced, Pinned, FullPass, Quiet, Confirms;
    PagesAsk(replies, asked, 4, map[], {});
    var pass := Pages(replies, asked, 4, map[], {});
    forall c: Catalog, n: nat
      ensures pass == PassDone(c, n) <==> FullPass(replies, asked, n, c)
    {
      PassExactly(replies, asked, n, c);
    }
    if pass.PassDone? {
      ConfirmedIsPinned(pass.catalog, pins);
      QuietIsUnannounced(changes, asked, pass.asked);
      assert Confirmed(replies, pins, asked, pass.asked, pass.catalog) <==> Pinned(pass.catalog, pins);
    }
  }

  /** Discovery succeeds, after so many requests and with this catalog, exactly if a first pass confirms the
      pins while nothing changes, or if one confirms them, something changed meanwhile, and the pass that
      follows it confirms them again while nothing changes. */
  lemma DiscoveredExactly(replies: Replies, changes: Changes, pins: Catalog, catalog: Catalog, end: nat)
    ensures Discover(replies, changes, pins, 0, 1) == Discovered(catalog, end) <==>
              || (Confirmed(replies, pins, 0, end, catalog) && Quiet(changes, 0, end))
              || exists before, n: nat :: Confirmed(replies, pins, 0, n, before) && !Quiet(changes, 0, n)
                   && Confirmed(replies, pins, n, end, catalog) && Quiet(changes, n, end)
  {
    hide Discover, Confirmed, Quiet;
    OnePass(replies, changes, pins, 0, 1, catalog, end);
    forall n: nat
      ensures Discover(replies, changes, pins, n, 0) == Discovered(catalog, end)
              <==> Confirmed(replies, pins, n, end, catalog) && Quiet(changes, n, end)
    {
      OnePass(replies, changes, pins, n, 0, catalog, end);
    }
  }
}
