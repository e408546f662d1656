/**
 * Keyset pages over the inventory: identities in ascending order after a cursor, each with all its offers
 * from the selected snapshots, and the guarantee that following the cursors lists everything once.
 */
module Pagination {
  import opened Common
  import opened Ordering
  import opened Cursor

  datatype OfferRow = OfferRow(identityId: string, routeId: string, snapshotOfferId: string)

  datatype OpenAlias = OpenAlias(provider: string, sourceId: string, identityId: string)

  /**
   * What a query sees of a fixed store: the identities, the offers of the selected latest snapshots, all
   * offers ever recorded in the selected scopes, the open aliases, and the selected providers.
   */
  datatype Inventory = Inventory(
    identities: set<string>, selected: seq<OfferRow>, scoped: seq<OfferRow>, aliases: set<OpenAlias>, providers: set<string>)

  datatype Query = Query(onlyAvailable: bool, identityRef: Option<string>)

  predicate Offered(offers: seq<OfferRow>, id: string) {
    exists i :: 0 <= i < |offers| && offers[i].identityId == id
  }

  /** The identity is named by its id or by an open alias of a selected provider. */
  predicate Named(inventory: Inventory, id: string, name: string) {
    id == name
    || exists a :: a in inventory.aliases && a.identityId == id && a.sourceId == name && a.provider in inventory.providers
  }

  predicate Matches(inventory: Inventory, query: Query, id: string) {
    id in inventory.identities
    && Offered(if query.onlyAvailable then inventory.selected else inventory.scoped, id)
    && (query.identityRef.Some? ==> Offered(inventory.selected, id) && Named(inventory, id, query.identityRef.value))
  }

  /** What there is to list; without a selected provider there is nothing. */
  function Matching(inventory: Inventory, query: Query): set<string> {
    if inventory.providers == {} then {} else set id | id in inventory.identities && Matches(inventory, query, id)
  }

  /** Somebody offers the model, among the given offers. */
  ghost predicate HasOffer(offers: seq<OfferRow>, id: string) {
    exists o :: o in offers && o.identityId == id
  }

  lemma OfferedHasOffer(offers: seq<OfferRow>, id: string)
    ensures Offered(offers, id) <==> HasOffer(offers, id)
  {
    if Offered(offers, id) {
      var i :| 0 <= i < |offers| && offers[i].identityId == id;
      assert offers[i] in offers;
    }
  }

  /**
   * Asked for what is available, every identity with an offer in the selected snapshots is listed and no other; asked
   * for everything, every identity that was ever offered in the selected scopes is; and nothing without a provider. A
   * reference narrows this to the available ones with that id, or with an open alias of that name at such a provider.
   */
  lemma WhatIsListed(inventory: Inventory, id: string, name: string, onlyAvailable: bool)
    ensures id in Matching(inventory, Query(true, None)) <==>
            inventory.providers != {} && id in inventory.identities && HasOffer(inventory.selected, id)
    ensures id in Matching(inventory, Query(false, None)) <==>
            inventory.providers != {} && id in inventory.identities && HasOffer(inventory.scoped, id)
    ensures id in Matching(inventory, Query(onlyAvailable, Some(name))) <==>
            id in Matching(inventory, Query(onlyAvailable, None)) && HasOffer(inventory.selected, id)
            && (id == name
                || exists provider :: provider in inventory.providers && OpenAlias(provider, name, id) in inventory.aliases)
  {
    OfferedHasOffer(inventory.selected, id);
    OfferedHasOffer(inventory.scoped, id);
  }

  /** Every identity on a page of available or of named models has an offer on that page. */
  lemma ListedHasItsOffer(page: Page, inventory: Inventory, query: Query, after: Option<string>, limit: nat, id: string)
    requires IsPage(page, inventory, Matching(inventory, query), after, limit) && id in page.identities
    requires query.onlyAvailable || query.identityRef.Some?
    ensures HasOffer(page.offers, id)
  {
    assert id in Matching(inventory, query);
    OfferedHasOffer(inventory.selected, id);
    var o :| o in inventory.selected && o.identityId == id;
    OffersOfSame(inventory.selected, page.identities, set i | i in page.identities);
    assert o in page.offers;
  }

  predicate Past(after: Option<string>, id: string) {
    after.None? || Less(after.value, id)
  }

  function Rest(ids: set<string>, after: Option<string>): set<string> {
    set id | id in ids && Past(after, id)
  }

  /** Ids are ordered by themselves. */
  function ById(ids: set<string>): map<string, real> {
    map id | id in ids :: 0.0
  }

  ghost predicate Sorted(ids: seq<string>) {
    forall k, l :: 0 <= k < l < |ids| ==> Less(ids[k], ids[l])
  }

  function OffersOf(offers: seq<OfferRow>, ids: seq<string>): seq<OfferRow> {
    if offers == [] then []
    else
      OffersOf(offers[..|offers| - 1], ids)
      + if offers[|offers| - 1].identityId in ids then [offers[|offers| - 1]] else []
  }

  datatype Page = Page(identities: seq<string>, offers: seq<OfferRow>, hasMore: bool)

  /** The next `limit` matching identities in order, their offers, and whether there are more. */
  ghost predicate IsPage(page: Page, inventory: Inventory, ids: set<string>, after: Option<string>, limit: nat) {
    Sorted(page.identities)
    && (forall id :: id in page.identities ==> id in Rest(ids, after))
    && |page.identities| == (if limit < |Rest(ids, after)| then limit else |Rest(ids, after)|)
    && (forall id, shown :: id in Rest(ids, after) && id !in page.identities && shown in page.identities ==> Less(shown, id))
    && (page.hasMore <==> limit < |Rest(ids, after)|)
    && page.offers == OffersOf(inventory.selected, page.identities)
  }

  lemma SelectionIsSorted(rows: seq<string>, ids: set<string>, limit: nat)
    requires IsSelection(rows, ids, ById(ids), limit)
    ensures Sorted(rows)
    ensures forall id, row :: id in ids && id !in rows && row in rows ==> Less(row, id)
  {
  }

  /** The first rows of a selection of one more are a page's identities. */
  lemma FirstRowsAreThePage(rows: seq<string>, ids: set<string>, limit: nat, shown: seq<string>)
    requires IsSelection(rows, ids, ById(ids), limit + 1)
    requires shown == if |rows| > limit then rows[..limit] else rows
    ensures Sorted(shown) && |shown| == (if limit < |ids| then limit else |ids|)
    ensures forall id :: id in shown ==> id in ids
    ensures forall id, row :: id in ids && id !in shown && row in shown ==> Less(row, id)
    ensures |rows| > limit <==> limit < |ids|
  {
    SelectionIsSorted(rows, ids, limit + 1);
    forall id, row | id in ids && id !in shown && row in shown ensures Less(row, id) {
      var k :| 0 <= k < |shown| && shown[k] == row;
      assert rows[k] == row && row in rows;
      if id in rows {
        var l :| 0 <= l < |rows| && rows[l] == id;
        assert forall m :: 0 <= m < |shown| ==> shown[m] == rows[m] && shown[m] in shown;
      }
    }
    forall id | id in shown ensures id in ids {
      assert id in rows;
    }
  }

  /** `inventory_identity_page`; a limit outside 1 to 200 is refused. */
  method IdentityPage(inventory: Inventory, query: Query, after: Option<string>, limit: int) returns (page: Option<Page>)
    ensures page.Some? <==> 1 <= limit <= 200
    ensures page.Some? ==> IsPage(page.value, inventory, Matching(inventory, query), after, limit)
  {
    if !(1 <= limit <= 200) {
      return None;
    }
    var rest := Rest(Matching(inventory, query), after);
    var rows := Select(rest, ById(rest), limit + 1);
    var shown := if |rows| > limit then rows[..limit] else rows;
    FirstRowsAreThePage(rows, rest, limit, shown);
    return Some(Page(shown, OffersOf(inventory.selected, shown), |rows| > limit));
  }

  datatype Reply = BadCursor | BadLimit | Shown(page: Page, nextCursor: Option<string>)

  ghost function PositionAfter(position: Position): Option<string> {
    if position.AfterId? then Some(position.id) else None
  }

  /** `inspect`, its page and its cursors. */
  method Inspect(json: Json, inventory: Inventory, query: Query, cursor: Option<string>, limit: int) returns (reply: Reply)
    ensures reply.BadCursor? <==> DecodeCursor(json, cursor).Invalid?
    ensures reply.BadLimit? <==> !DecodeCursor(json, cursor).Invalid? && !(1 <= limit <= 200)
    ensures reply.Shown? ==>
              IsPage(reply.page, inventory, Matching(inventory, query), PositionAfter(DecodeCursor(json, cursor)), limit)
              && (reply.nextCursor.Some? <==> reply.page.hasMore)
              && (reply.nextCursor.Some? ==>
                    reply.page.identities != []
                    && reply.nextCursor.value == EncodeCursor(json, reply.page.identities[|reply.page.identities| - 1]))
  {
    var position := DecodeCursor(json, cursor);
    if position.Invalid? {
      return BadCursor;
    }
    var page := IdentityPage(inventory, query, if position.AfterId? then Some(position.id) else None, limit);
    if page.None? {
      return BadLimit;
    }
    var ids := page.value.identities;
    return Shown(page.value, if page.value.hasMore && ids != [] then Some(EncodeCursor(json, ids[|ids| - 1])) else None);
  }

  // ----- Following the cursors -----

  /** `ids` are the matching identities up to and including `after`, in order. */
  ghost predicate ListedUpTo(ids: seq<string>, matching: set<string>, after: Option<string>) {
    Sorted(ids) && forall id :: id in ids <==> id in matching && !Past(after, id)
  }

  lemma PageExtendsList(
    ids: seq<string>, page: Page, inventory: Inventory, matching: set<string>, after: Option<string>, limit: nat)
    requires ListedUpTo(ids, matching, after) && IsPage(page, inventory, matching, after, limit)
    ensures Sorted(ids + page.identities)
    ensures page.hasMore && limit > 0 ==>
              ListedUpTo(ids + page.identities, matching, Some(page.identities[|page.identities| - 1]))
    ensures !page.hasMore ==> forall id :: id in ids + page.identities <==> id in matching
    ensures forall id :: id in page.identities ==> id !in ids
  {
    var shown, longer := page.identities, ids + page.identities;
    forall k, l | 0 <= k < |ids| && 0 <= l < |shown| ensures Less(ids[k], shown[l]) {
      assert ids[k] in ids && shown[l] in shown;
      BeforeRest(ids[k], shown[l], after);
    }
    if page.hasMore && limit > 0 {
      var last := shown[|shown| - 1];
      assert last in shown;
      forall id ensures id in longer <==> id in matching && !Past(Some(last), id) {
        UpToLast(id, ids, shown, matching, after, last);
      }
    }
    if !page.hasMore {
      AllOfRest(shown, Rest(matching, after));
    }
  }

  lemma BeforeRest(listed: string, next: string, after: Option<string>)
    requires !Past(after, listed) && Past(after, next)
    ensures Less(listed, next)
  {
    LessTotal(after.value, listed);
    if listed != after.value {
      LessTransitive(listed, after.value, next);
    }
  }

  lemma UpToLast(
    id: string, ids: seq<string>, shown: seq<string>, matching: set<string>, after: Option<string>, last: string)
    requires ListedUpTo(ids, matching, after) && Sorted(shown) && shown != [] && last == shown[|shown| - 1]
    requires forall s :: s in shown ==> s in Rest(matching, after)
    requires forall s, r :: r in Rest(matching, after) && r !in shown && s in shown ==> Less(s, r)
    ensures id in ids + shown <==> id in matching && !Past(Some(last), id)
  {
    assert last in shown;
    if id in ids {
      BeforeRest(id, last, after);
      LessAsymmetric(id, last);
    }
    if id in shown {
      var k :| 0 <= k < |shown| && shown[k] == id;
      LessIrreflexive(last);
      if k < |shown| - 1 {
        LessAsymmetric(id, last);
      }
    }
  }

  lemma AllOfRest(shown: seq<string>, rest: set<string>)
    requires Sorted(shown) && |shown| == |rest| && forall id :: id in shown ==> id in rest
    ensures forall id :: id in rest ==> id in shown
  {
    var all := ById(rest);
    forall k, l | 0 <= k < l < |shown| ensures Before(all, shown[k], shown[l]) {
      assert shown[k] in shown && shown[l] in shown;
    }
    forall k | 0 <= k < |shown| ensures shown[k] in all {
      assert shown[k] in shown;
    }
    var listed := DistinctRows(shown, all);
    Larger(listed, rest);
  }

  lemma RestShrinks(matching: set<string>, after: Option<string>, last: string)
    requires last in Rest(matching, after)
    ensures |Rest(matching, Some(last))| < |Rest(matching, after)|
  {
    forall id | id in Rest(matching, Some(last)) ensures id in Rest(matching, after) {
      if after.Some? {
        LessTransitive(after.value, last, id);
      }
    }
    LessIrreflexive(last);
    Larger(Rest(matching, Some(last)), Rest(matching, after));
  }

  lemma {:induction false} OffersOfBoth(offers: seq<OfferRow>, a: seq<string>, b: seq<string>)
    requires forall id :: id in b ==> id !in a
    ensures multiset(OffersOf(offers, a)) + multiset(OffersOf(offers, b)) == multiset(OffersOf(offers, a + b))
  {
    if offers != [] {
      OffersOfBoth(offers[..|offers| - 1], a, b);
    }
  }

  lemma {:induction false} OffersOfSame(offers: seq<OfferRow>, a: seq<string>, ids: set<string>)
    requires forall id :: id in a <==> id in ids
    ensures forall o :: o in OffersOf(offers, a) <==> o in offers && o.identityId in ids
  {
    if offers != [] {
      var front, last := offers[..|offers| - 1], offers[|offers| - 1];
      OffersOfSame(front, a, ids);
      assert offers == front + [last];
    }
  }

  lemma AllOffersListed(selected: seq<OfferRow>, ids: seq<string>, matching: set<string>, offers: seq<OfferRow>)
    requires multiset(offers) == multiset(OffersOf(selected, ids)) && forall id :: id in ids <==> id in matching
    ensures forall o :: o in offers <==> o in selected && o.identityId in matching
  {
    OffersOfSame(selected, ids, matching);
    forall o ensures o in offers <==> o in OffersOf(selected, ids) {
      assert o in multiset(offers) <==> o in multiset(OffersOf(selected, ids));
    }
  }

  /** One more page: what the loop that follows the cursors keeps. */
  lemma NextPage(
    ids: seq<string>, offers: seq<OfferRow>, page: Page, inventory: Inventory, matching: set<string>,
    after: Option<string>, limit: nat)
    requires ListedUpTo(ids, matching, after) && IsPage(page, inventory, matching, after, limit) && limit > 0
    requires multiset(offers) == multiset(OffersOf(inventory.selected, ids))
    ensures multiset(offers + page.offers) == multiset(OffersOf(inventory.selected, ids + page.identities))
    ensures Sorted(ids + page.identities)
    ensures page.hasMore ==>
              page.identities != [] && page.identities[|page.identities| - 1] in matching
              && ListedUpTo(ids + page.identities, matching, Some(page.identities[|page.identities| - 1]))
              && |Rest(matching, Some(page.identities[|page.identities| - 1]))| < |Rest(matching, after)|
    ensures !page.hasMore ==> forall id :: id in ids + page.identities <==> id in matching
  {
    PageExtendsList(ids, page, inventory, matching, after, limit);
    OffersOfBoth(inventory.selected, ids, page.identities);
    if page.hasMore {
      var last := page.identities[|page.identities| - 1];
      assert last in page.identities;
      RestShrinks(matching, after, last);
    }
  }

  /**
   * Following the cursors from the start always ends, and lists every matching identity exactly once, in
   * ascending order, with every one of its offers as often as the selected snapshots hold it.
   */
  method ListAll(json: Json, inventory: Inventory, query: Query, limit: int) returns (ids: seq<string>, offers: seq<OfferRow>)
    requires ReadsBack(json) && 1 <= limit <= 200 && "" !in inventory.identities
    ensures Sorted(ids) && forall id :: id in ids <==> id in Matching(inventory, query)
    ensures multiset(offers) == multiset(OffersOf(inventory.selected, ids))
    ensures forall o :: o in offers <==> o in inventory.selected && o.identityId in Matching(inventory, query)
  {
    var matching := Matching(inventory, query);
    ids, offers := [], [];
    var cursor: Option<string> := None;
    ghost var after: Option<string> := None;
    OffersOfNone(inventory.selected);
    while true
      invariant !DecodeCursor(json, cursor).Invalid? && PositionAfter(DecodeCursor(json, cursor)) == after
      invariant ListedUpTo(ids, matching, after)
      invariant multiset(offers) == multiset(OffersOf(inventory.selected, ids))
      decreases |Rest(matching, after)|
    {
      var reply := Inspect(json, inventory, query, cursor, limit);
      var page := reply.page;
      NextPage(ids, offers, page, inventory, matching, after, limit);
      ids := ids + page.identities;
      offers := offers + page.offers;
      if reply.nextCursor.None? {
        AllOffersListed(inventory.selected, ids, matching, offers);
        return;
      }
      ghost var last := page.identities[|page.identities| - 1];
      CursorReturns(json, last);
      cursor := reply.nextCursor;
      after := Some(last);
    }
  }

  lemma {:induction false} OffersOfNone(offers: seq<OfferRow>)
    ensures OffersOf(offers, []) == []
  {
    if offers != [] {
      OffersOfNone(offers[..|offers| - 1]);
    }
  }
}
