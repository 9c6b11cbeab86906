/** The listing handlers, composed from the window, the flattening and the
    record builders. The chain's event lists, the contract calls and the
    store reads are inputs: one list per event query, and one answer per
    scroll type, certificate or manager address for the calls. */
module Handlers {
  import opened Wrappers
  import opened JsSeqs
  import opened JsNumbers
  import EventWindow
  import ConcatApply
  import Lifecycle
  import Thumbnails
  import opened Enrichment

  /** `pageMagicScrollsWeb3`: one window of the shop's `ScrollAdded` events,
      each enriched for the requesting user. */
  function ShopPage(added: seq<ScrollAdded>, page: string,
                    chain: string -> ChainAnswers, docs: string -> DocLookup)
    : (r: Response<seq<Option<ScrollView>>>)
    ensures r.Ok? <==> EventWindow.Window(added, page).Ok?
    ensures !r.Ok? ==> r == NotFound(EventWindow.OUT_OF_PAGE)
    ensures r.Ok? ==> var events := EventWindow.Window(added, page).body;
      && |r.body| == |events|
      && forall k :: 0 <= k < |events| ==>
           && (r.body[k].None? <==> ScrollRecordFails(chain(events[k].scrollType), docs(events[k].scrollType)))
           && (r.body[k].Some? ==> r.body[k].value.tokenId == events[k].scrollType)
           && r.body[k] == ScrollRecord(events[k].scrollType, None, chain(events[k].scrollType), docs(events[k].scrollType))
  {
    match EventWindow.Window(added, page)
    case Ok(slice) => Ok(ShopRecords(slice, chain, docs))
    case _ => NotFound(EventWindow.OUT_OF_PAGE)
  }

  /** A decimal page n is answered exactly when 8n is below the number of
      `ScrollAdded` events, and is "Out of page" otherwise. */
  lemma ShopPageAccepts(added: seq<ScrollAdded>, page: string,
                        chain: string -> ChainAnswers, docs: string -> DocLookup)
    requires IsDigitString(page)
    ensures var r := ShopPage(added, page, chain, docs);
      && (r.Ok? <==> 8 * DecimalValue(page) < |added|)
      && (!r.Ok? ==> r == NotFound(EventWindow.OUT_OF_PAGE))
  {
    EventWindow.WindowOfDecimalPage(added, page);
  }

  /** `pageMagicScrollsWeb3Inventory`: one window of the user's
      `ScrollBought` events, each enriched and given its state from the
      shop's `ScrollConsumed` and `ScrollBurned` events. */
  function InventoryPage(bought: seq<ScrollBought>, page: string,
                         consumed: seq<Lifecycle.ScrollEvent>, burned: seq<Lifecycle.ScrollEvent>,
                         chain: string -> ChainAnswers, docs: string -> DocLookup)
    : (r: Response<seq<Option<ScrollView>>>)
    ensures r.Ok? <==> EventWindow.Window(bought, page).Ok?
    ensures !r.Ok? ==> r == NotFound(EventWindow.OUT_OF_PAGE)
    ensures r.Ok? ==> var events := EventWindow.Window(bought, page).body;
      && |r.body| == |events|
      && forall k :: 0 <= k < |events| ==>
           && (r.body[k].None? <==> ScrollRecordFails(chain(events[k].scrollType), docs(events[k].scrollType)))
           && (r.body[k].Some? ==>
                 && r.body[k].value.tokenId == events[k].scrollId
                 && r.body[k].value.state == Some(Lifecycle.State(events[k].scrollId, consumed, burned)))
           && r.body[k] == ScrollRecord(events[k].scrollId, Some(Lifecycle.State(events[k].scrollId, consumed, burned)),
                                        chain(events[k].scrollType), docs(events[k].scrollType))
  {
    match EventWindow.Window(bought, page)
    case Ok(slice) => Ok(InventoryRecords(slice, consumed, burned, chain, docs))
    case _ => NotFound(EventWindow.OUT_OF_PAGE)
  }

  /** A decimal page n is answered exactly when 8n is below the number of
      the user's `ScrollBought` events, and is "Out of page" otherwise. */
  lemma InventoryPageAccepts(bought: seq<ScrollBought>, page: string,
                             consumed: seq<Lifecycle.ScrollEvent>, burned: seq<Lifecycle.ScrollEvent>,
                             chain: string -> ChainAnswers, docs: string -> DocLookup)
    requires IsDigitString(page)
    ensures var r := InventoryPage(bought, page, consumed, burned, chain, docs);
      && (r.Ok? <==> 8 * DecimalValue(page) < |bought|)
      && (!r.Ok? ==> r == NotFound(EventWindow.OUT_OF_PAGE))
  {
    EventWindow.WindowOfDecimalPage(bought, page);
  }

  /** `allMagicScrollsWeb3`: every `ScrollAdded` event with its stored
      document, unpaged; always answered with status 200. */
  function AdminListing(added: seq<ScrollAdded>, docs: string -> DocLookup)
    : (r: Response<seq<Option<ListedScroll>>>)
    ensures r.Ok? && |r.body| == |added|
    ensures forall k :: 0 <= k < |added| ==>
      (r.body[k].None? <==> docs(added[k].scrollType).Thrown? || docs(added[k].scrollType).value.None?)
    ensures forall k :: 0 <= k < |added| && r.body[k].Some? ==>
      r.body[k].value.tokenId == added[k].scrollType && r.body[k].value.meta == docs(added[k].scrollType).value.value
  {
    Ok(ListedRecords(added, docs))
  }

  /** The return values of a `CertificateMinted` event. */
  datatype CertificateToken = CertificateToken(student: string, typeId: string)

  /** `{ address, token }`: a minted certificate and its manager's address. */
  datatype MintedCertificate = MintedCertificate(address: string, token: CertificateToken)

  /** The student's certificates that pass the `verified` filter, in the
      order of the managers and then of the chain log. */
  function VerifiedCertificates(minted: seq<seq<MintedCertificate>>, verified: MintedCertificate -> bool)
    : (r: seq<MintedCertificate>)
    ensures forall c :: c in r ==> verified(c)
  {
    Filter(ConcatApply.Flatten(minted), verified)
  }

  /** `allCertificatesWeb3`: the student's minted certificates of every
      manager, flattened, kept where `verified` holds, windowed, and each
      replaced by its stored document (`undefined` when there is none).
      These reads have no try block: one that throws rejects the page. */
  function CertificatesPage<D>(minted: seq<seq<MintedCertificate>>,
                               verified: MintedCertificate -> bool, page: string,
                               read: MintedCertificate -> Completion<Option<D>>)
    : (r: Response<seq<Option<D>>>)
    ensures var window := EventWindow.Window(VerifiedCertificates(minted, verified), page);
      && (r.NotFound? <==> !window.Ok?)
      && (r.NotFound? ==> r.message == EventWindow.OUT_OF_PAGE)
      && (r.Ok? <==> window.Ok? && forall k :: 0 <= k < |window.body| ==> read(window.body[k]).Normal?)
      && (r.Ok? ==> |r.body| == |window.body|
                    && forall k :: 0 <= k < |r.body| ==> r.body[k] == read(window.body[k]).value)
  {
    match EventWindow.Window(VerifiedCertificates(minted, verified), page)
    case Ok(slice) =>
      (match GatherAll(slice, read)
       case Normal(documents) => Ok(documents)
       case Thrown => Unhandled)
    case _ => NotFound(EventWindow.OUT_OF_PAGE)
  }

  /** The certificates windowed are those of the in-order concatenation of
      every manager's list that pass the filter. */
  lemma VerifiedCertificatesInOrder(minted: seq<seq<MintedCertificate>>, verified: MintedCertificate -> bool)
    ensures VerifiedCertificates(minted, verified) == Filter(ConcatApply.Concatenation(minted), verified)
  {
    ConcatApply.FlattenIsConcatenation(minted);
  }

  /** A certificate is kept exactly when it is one of the managers' minted
      certificates and `verified` holds for it. */
  lemma VerifiedCertificatesExact(minted: seq<seq<MintedCertificate>>, verified: MintedCertificate -> bool)
    ensures forall c :: (c in VerifiedCertificates(minted, verified)
                         <==> c in ConcatApply.Concatenation(minted) && verified(c))
  {
    VerifiedCertificatesInOrder(minted, verified);
  }

  /** What `await certificateManager.methods.verify(student, typeId)` gives
      without `.call()`: the method object itself, which is truthy. */
  function UncalledVerify(c: MintedCertificate): bool {
    true
  }

  /** With the verification as written, the filter keeps every minted
      certificate. */
  lemma UncalledVerifyKeepsAll(minted: seq<seq<MintedCertificate>>)
    ensures VerifiedCertificates(minted, UncalledVerify) == ConcatApply.Concatenation(minted)
  {
    VerifiedCertificatesInOrder(minted, UncalledVerify);
    FilterAll(ConcatApply.Concatenation(minted), UncalledVerify);
  }

  /** A certificate document as the guild listing reads it; `url` is None
      when the document has no string `url`, on which `url.slice` throws. */
  datatype StoredCertificate = StoredCertificate(title: string, url: Option<string>, address: string, tokenId: int)

  /** A guild listing entry. */
  datatype MergedSkill = MergedSkill(name: string, image: string, address: string,
                                     tokenId: int, shopName: string, added: bool)

  /** One guild listing entry: the shop's name is asked for by the
      certificate's manager address, then the entry is built with
      `thumbThis(ele.url)` (no try block around either). */
  function MergeSkill(c: StoredCertificate, shopName: string -> Completion<string>): (r: Completion<MergedSkill>)
    ensures r.Normal? <==> shopName(c.address).Normal? && c.url.Some?
    ensures r.Normal? ==>
      && r.value.name == c.title && r.value.image == Thumbnails.ThumbThis(c.url.value)
      && r.value.address == c.address && r.value.tokenId == c.tokenId
      && r.value.shopName == shopName(c.address).value && !r.value.added
  {
    match shopName(c.address)
    case Thrown => Thrown
    case Normal(name) =>
      match c.url
      case None => Thrown
      case Some(url) => Normal(MergedSkill(c.title, Thumbnails.ThumbThis(url), c.address, c.tokenId, name, false))
  }

  /** `allGuildCertificatesQueryWeb3`: the certificate groups, one per
      manager, put through `[].concat.apply(...allSkills)`, and each
      certificate given its thumbnail URL and its shop's name
      (`shopName`, the two chained view calls; no try block). */
  function GuildCertificates(groups: seq<seq<StoredCertificate>>, shopName: string -> Completion<string>)
    : (r: Response<seq<MergedSkill>>)
    ensures |groups| == 0 ==> r == Unhandled
    ensures !r.NotFound?
    ensures |groups| > 0 ==>
      var listed := if |groups| == 1 then groups[0] else groups[0] + groups[1];
      (r.Ok? <==> forall k :: 0 <= k < |listed| ==> shopName(listed[k].address).Normal? && listed[k].url.Some?)
    ensures r.Ok? ==>
      var listed := if |groups| == 1 then groups[0] else groups[0] + groups[1];
      && |r.body| == |listed|
      && forall k :: 0 <= k < |listed| ==>
           && listed[k].url.Some?
           && r.body[k].image == Thumbnails.ThumbThis(listed[k].url.value)
           && r.body[k].name == listed[k].title
           && r.body[k].tokenId == listed[k].tokenId
           && r.body[k].address == listed[k].address
           && shopName(listed[k].address) == Normal(r.body[k].shopName)
           && !r.body[k].added
  {
    ConcatApply.ConcatApplySpreadCases(groups);
    match ConcatApply.ConcatApplySpread(groups)
    case Thrown => Unhandled
    case Normal(listed) =>
      match GatherAll(listed, (c: StoredCertificate) => MergeSkill(c, shopName))
      case Thrown => Unhandled
      case Normal(merged) => Ok(merged)
  }

  /** The return values of an `ApprovalForCM` event. */
  datatype ApprovalForCM = ApprovalForCM(account: string)

  function Accounts(events: seq<ApprovalForCM>): (r: seq<string>)
    ensures |r| == |events|
    ensures forall k :: 0 <= k < |events| ==> r[k] == events[k].account
  {
    if events == [] then [] else [events[0].account] + Accounts(events[1..])
  }

  /** `getAllCM`: the accounts of the shop's `ApprovalForCM` events, in
      order, or a 404 naming the shop when there is none. */
  function ApprovedManagers(shop: string, events: seq<ApprovalForCM>): (r: Response<seq<string>>)
    ensures r.Ok? <==> |events| > 0
    ensures r.Ok? ==> |r.body| == |events| && forall k :: 0 <= k < |events| ==> r.body[k] == events[k].account
    ensures !r.Ok? ==> r == NotFound(shop + " has no approved manager!")
  {
    var certificateManager := Accounts(events);
    if |certificateManager| > 0 then Ok(certificateManager)
    else NotFound(shop + " has no approved manager!")
  }
}
