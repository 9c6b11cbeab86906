/** Building one response record per paged event from what the shop
    contract and the document store answer. Each record is built inside its
    own try block, so a failure turns that record into `null` without
    touching the others, and `Promise.all` keeps every record at the
    position of its event. */
module Enrichment {
  import opened Wrappers
  import Lifecycle

  /** The fields of a stored scroll document that the handlers copy; a field
      the document lacks is None (left out of the JSON). */
  datatype Metadata = Metadata(
    url: Option<string>,
    name: Option<string>,
    courseId: Option<string>,
    description: Option<string>)

  /** Entries 1 to 6 of what `scrollTypeInfo(scrollType)` returns. */
  datatype ScrollTypeInfo = ScrollTypeInfo(
    weiPrice: string,
    prerequisiteId: string,
    prerequisite: string,
    hasLesson: bool,
    hasPrerequisite: bool,
    available: bool)

  /** How the shop contract answers, for one scroll type and the requesting
      user, the two view calls of a record, and how the price conversion
      `fromWei(info[1], "ether")` ends. */
  datatype ChainAnswers = ChainAnswers(
    isPurchasable: Completion<bool>,
    info: Completion<ScrollTypeInfo>,
    priceInEther: Completion<string>)

  /** `doc(scrollType).get()` followed by `.data()`: the read throws, or it
      gives the document's data, None (`undefined`) when there is no such
      document. */
  type DocLookup = Completion<Option<Metadata>>

  /** The return values of a `ScrollAdded` event. */
  datatype ScrollAdded = ScrollAdded(scrollType: string)

  /** The return values of a `ScrollBought` event. */
  datatype ScrollBought = ScrollBought(scrollId: string, scrollType: string)

  /** A scroll as the shop page (no `state`) and the inventory page return it. */
  datatype ScrollView = ScrollView(
    tokenId: string,
    meta: Metadata,
    isPurchasable: bool,
    state: Option<int>,
    price: string,
    prerequisiteId: string,
    prerequisite: string,
    hasLesson: bool,
    hasPrerequisite: bool,
    available: bool)

  /** A scroll as the admin listing returns it: off-chain fields only. */
  datatype ListedScroll = ListedScroll(tokenId: string, meta: Metadata)

  /** Some step of a shop or inventory record's try block throws: a view
      call, the store read, `fromWei`, or reading `url` from the `undefined`
      data of a missing document (`fromDb` is a snapshot and always truthy,
      so the `{}` default is never taken). */
  predicate ScrollRecordFails(chain: ChainAnswers, doc: DocLookup) {
    || chain.isPurchasable.Thrown?
    || chain.info.Thrown?
    || doc.Thrown?
    || doc.value.None?
    || chain.priceInEther.Thrown?
  }

  /** The body of the try block for one record: the view fields from the
      chain, the off-chain fields from the document, and the given id and
      state. */
  function ScrollRecord(tokenId: string, state: Option<int>, chain: ChainAnswers, doc: DocLookup)
    : (r: Option<ScrollView>)
    ensures r.None? <==> ScrollRecordFails(chain, doc)
    ensures r.Some? ==> r.value.tokenId == tokenId && r.value.state == state
    ensures r.Some? ==> r.value.meta == doc.value.value
    ensures r.Some? ==> r.value.isPurchasable == chain.isPurchasable.value
    ensures r.Some? ==> r.value.price == chain.priceInEther.value
    ensures r.Some? ==> r.value.prerequisiteId == chain.info.value.prerequisiteId
    ensures r.Some? ==> r.value.prerequisite == chain.info.value.prerequisite
    ensures r.Some? ==> r.value.hasLesson == chain.info.value.hasLesson
    ensures r.Some? ==> r.value.hasPrerequisite == chain.info.value.hasPrerequisite
    ensures r.Some? ==> r.value.available == chain.info.value.available
  {
    if ScrollRecordFails(chain, doc) then None
    else
      var info := chain.info.value;
      Some(ScrollView(tokenId, doc.value.value, chain.isPurchasable.value, state,
                      chain.priceInEther.value, info.prerequisiteId, info.prerequisite,
                      info.hasLesson, info.hasPrerequisite, info.available))
  }

  /** `Promise.all(xs.map(async x => { try { … } catch (err) { return null; } }))`,
      with the records taken one after another: each result stays at the
      position of its input. */
  function MapEntries<A, B>(xs: seq<A>, entry: A -> Option<B>): (r: seq<Option<B>>)
    ensures |r| == |xs|
    ensures forall k :: 0 <= k < |xs| ==> r[k] == entry(xs[k])
  {
    if xs == [] then [] else [entry(xs[0])] + MapEntries(xs[1..], entry)
  }

  /** The shop page's records: keyed by `scrollType`, with no state. The
      chain and the store are asked about the event's scroll type. */
  function ShopRecords(slice: seq<ScrollAdded>, chain: string -> ChainAnswers, docs: string -> DocLookup)
    : (r: seq<Option<ScrollView>>)
    ensures |r| == |slice|
    ensures forall k :: 0 <= k < |slice| ==>
      (r[k].None? <==> ScrollRecordFails(chain(slice[k].scrollType), docs(slice[k].scrollType)))
    ensures forall k :: 0 <= k < |slice| && r[k].Some? ==>
      r[k].value.tokenId == slice[k].scrollType && r[k].value.state == None
    ensures forall k :: 0 <= k < |slice| ==>
      r[k] == ScrollRecord(slice[k].scrollType, None, chain(slice[k].scrollType), docs(slice[k].scrollType))
  {
    MapEntries(slice, (e: ScrollAdded) => ScrollRecord(e.scrollType, None, chain(e.scrollType), docs(e.scrollType)))
  }

  /** The inventory page's records: keyed by the bought instance's `scrollId`
      and carrying its reconciled state, while the chain and the store are
      asked about its scroll type. */
  function InventoryRecords(slice: seq<ScrollBought>,
                            consumed: seq<Lifecycle.ScrollEvent>, burned: seq<Lifecycle.ScrollEvent>,
                            chain: string -> ChainAnswers, docs: string -> DocLookup)
    : (r: seq<Option<ScrollView>>)
    ensures |r| == |slice|
    ensures forall k :: 0 <= k < |slice| ==>
      (r[k].None? <==> ScrollRecordFails(chain(slice[k].scrollType), docs(slice[k].scrollType)))
    ensures forall k :: 0 <= k < |slice| && r[k].Some? ==>
      && r[k].value.tokenId == slice[k].scrollId
      && r[k].value.state == Some(Lifecycle.State(slice[k].scrollId, consumed, burned))
    ensures forall k :: 0 <= k < |slice| ==>
      r[k] == ScrollRecord(slice[k].scrollId, Some(Lifecycle.State(slice[k].scrollId, consumed, burned)),
                           chain(slice[k].scrollType), docs(slice[k].scrollType))
  {
    MapEntries(slice, (e: ScrollBought) =>
      ScrollRecord(e.scrollId, Some(Lifecycle.State(e.scrollId, consumed, burned)),
                   chain(e.scrollType), docs(e.scrollType)))
  }

  /** The admin listing's try block: only the store is read. */
  function ListedRecord(event: ScrollAdded, doc: DocLookup): (r: Option<ListedScroll>)
    ensures r.None? <==> doc.Thrown? || doc.value.None?
    ensures r.Some? ==> r.value.tokenId == event.scrollType && r.value.meta == doc.value.value
  {
    if doc.Thrown? || doc.value.None? then None
    else Some(ListedScroll(event.scrollType, doc.value.value))
  }

  /** The admin listing's records, one per `ScrollAdded` event, unpaged. */
  function ListedRecords(events: seq<ScrollAdded>, docs: string -> DocLookup)
    : (r: seq<Option<ListedScroll>>)
    ensures |r| == |events|
    ensures forall k :: 0 <= k < |events| ==>
      (r[k].None? <==> docs(events[k].scrollType).Thrown? || docs(events[k].scrollType).value.None?)
    ensures forall k :: 0 <= k < |events| && r[k].Some? ==> r[k].value.tokenId == events[k].scrollType
    ensures forall k :: 0 <= k < |events| ==> r[k] == ListedRecord(events[k], docs(events[k].scrollType))
  {
    MapEntries(events, (e: ScrollAdded) => ListedRecord(e, docs(e.scrollType)))
  }

  /** `Promise.all` over calls that have no try block: it gives every
      result, in order, or rejects as soon as one call throws. */
  function GatherAll<A, B>(xs: seq<A>, call: A -> Completion<B>): (r: Completion<seq<B>>)
    ensures r.Normal? <==> forall k :: 0 <= k < |xs| ==> call(xs[k]).Normal?
    ensures r.Normal? ==> |r.value| == |xs|
    ensures r.Normal? ==> forall k :: 0 <= k < |xs| ==> r.value[k] == call(xs[k]).value
  {
    if xs == [] then Normal([])
    else
      match call(xs[0])
      case Thrown => Thrown
      case Normal(first) =>
        match GatherAll(xs[1..], call)
        case Thrown => Thrown
        case Normal(rest) => Normal([first] + rest)
  }

  /** A record that does not fail by the shop's rules holds the state the
      inventory reconciliation gives, which is one of the three. */
  lemma InventoryStateInRange(slice: seq<ScrollBought>,
                              consumed: seq<Lifecycle.ScrollEvent>, burned: seq<Lifecycle.ScrollEvent>,
                              chain: string -> ChainAnswers, docs: string -> DocLookup, k: nat)
    requires k < |slice|
    requires InventoryRecords(slice, consumed, burned, chain, docs)[k].Some?
    ensures InventoryRecords(slice, consumed, burned, chain, docs)[k].value.state.value
      in {Lifecycle.AVAILABLE, Lifecycle.CONSUMED, Lifecycle.BURNED}
  {
    Lifecycle.StateCases(slice[k].scrollId, consumed, burned);
  }
}
