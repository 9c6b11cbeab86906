/** The 24-wide cursor pagers over the store's token collections
    (`allCertificates`, `allMagicScrolls` and `allJobs`): the cursor is
    `parseInt(tokenId, 10)`, `next` lists tokens above it in ascending order,
    `previous` lists tokens below it in descending order, and any other
    direction lists the first 24 tokens. */
module CursorPager {
  import opened Wrappers
  import opened JsNumbers
  import opened JsSeqs

  /** `.limit(24)` on every query. */
  const LIMIT := 24

  /** `String(record)` for a plain object: what the default sort compares. */
  const OBJECT_STRING := "[object Object]"

  /** One document of the collection: its numeric `tokenId` and the rest of
      its data. */
  datatype StoredToken = StoredToken(tokenId: int, fields: map<string, string>)

  /** The collection as the store orders it by `tokenId`, smallest first. */
  predicate Ascending(s: seq<StoredToken>) {
    forall i, j :: 0 <= i < j < |s| ==> s[i].tokenId <= s[j].tokenId
  }

  predicate Descending(s: seq<StoredToken>) {
    forall i, j :: 0 <= i < j < |s| ==> s[i].tokenId >= s[j].tokenId
  }

  /** `startAfter(cursor)` in ascending order: a NaN cursor sorts before every
      number, so every token comes after it. */
  function AfterCursor(cursor: Number): StoredToken -> bool {
    (t: StoredToken) => cursor.NaN? || t.tokenId > cursor.value
  }

  /** `startAfter(cursor)` in descending order: a NaN cursor sorts before every
      number, so no token comes after it. */
  function BeforeCursor(cursor: Number): StoredToken -> bool {
    (t: StoredToken) => cursor.Int? && t.tokenId < cursor.value
  }

  /** `parseInt(req.params.tokenId, 10)`; a route without the parameter
      passes `undefined`, which parses as the string "undefined". */
  function CursorOf(tokenId: Option<string>): (c: Number)
    ensures tokenId.None? ==> c.NaN?
  {
    match tokenId
    case None => ParseInt("undefined")
    case Some(s) => ParseInt(s)
  }

  /** The three queries the handler chooses between. */
  function PageQuery(collection: seq<StoredToken>, cursor: Number, direction: Option<string>): (r: seq<StoredToken>)
    ensures |r| <= LIMIT
    ensures direction != Some("next") && direction != Some("previous") ==> r == collection[..Min(LIMIT, |collection|)]
  {
    if direction == Some("next") then
      Take(Filter(collection, AfterCursor(cursor)), LIMIT)
    else if direction == Some("previous") then
      Take(Filter(Reverse(collection), BeforeCursor(cursor)), LIMIT)
    else
      Take(collection, LIMIT)
  }

  function SortString(t: StoredToken): string {
    OBJECT_STRING
  }

  /** The handler: run the query, push each document's data into `data`,
      answer `data.sort()`. */
  method ListPage(collection: seq<StoredToken>, tokenId: Option<string>, direction: Option<string>)
    returns (body: seq<StoredToken>)
    ensures body == PageQuery(collection, CursorOf(tokenId), direction)
  {
    var snapshot := PageQuery(collection, CursorOf(tokenId), direction);
    var data: seq<StoredToken> := [];
    var i := 0;
    while i < |snapshot|
      invariant 0 <= i <= |snapshot|
      invariant data == snapshot[..i]
    {
      data := data + [snapshot[i]];
      i := i + 1;
    }
    assert data == snapshot;
    SortByKeyOfEqualKeys(data, SortString, OBJECT_STRING);
    body := SortByKey(data, SortString);
  }

  /** On an ascending collection, "above the cursor" holds from some position
      to the end. */
  lemma AfterCursorUpwardClosed(collection: seq<StoredToken>, cursor: Number)
    requires Ascending(collection)
    ensures UpwardClosed(collection, AfterCursor(cursor))
  {
    forall i, j | 0 <= i < j < |collection| && AfterCursor(cursor)(collection[i])
      ensures AfterCursor(cursor)(collection[j])
    {
      assert collection[i].tokenId <= collection[j].tokenId;
    }
  }

  lemma ReverseDescending(collection: seq<StoredToken>)
    requires Ascending(collection)
    ensures Descending(Reverse(collection))
  {
    var r := Reverse(collection);
    forall i, j | 0 <= i < j < |r| ensures r[i].tokenId >= r[j].tokenId {
      assert r[i] == collection[|collection| - 1 - i];
      assert r[j] == collection[|collection| - 1 - j];
    }
  }

  /** On a descending sequence, "below the cursor" holds from some position
      to the end. */
  lemma BeforeCursorUpwardClosed(s: seq<StoredToken>, cursor: Number)
    requires Descending(s)
    ensures UpwardClosed(s, BeforeCursor(cursor))
  {
    forall i, j | 0 <= i < j < |s| && BeforeCursor(cursor)(s[i])
      ensures BeforeCursor(cursor)(s[j])
    {
      assert s[i].tokenId >= s[j].tokenId;
    }
  }

  /** A run of consecutive tokens of an ascending collection is ascending. */
  lemma RunAscending(s: seq<StoredToken>, k: nat)
    requires Ascending(s) && k <= |s|
    ensures Ascending(Take(s[k..], LIMIT))
  {
    var r := Take(s[k..], LIMIT);
    forall i, j | 0 <= i < j < |r| ensures r[i].tokenId <= r[j].tokenId {
      assert r[i] == s[k + i] && r[j] == s[k + j];
    }
  }

  /** A run that starts above `cursor` in an ascending collection stays above it. */
  lemma RunAbove(s: seq<StoredToken>, k: nat, cursor: int)
    requires Ascending(s) && k <= |s|
    requires k < |s| ==> s[k].tokenId > cursor
    ensures forall i :: 0 <= i < |Take(s[k..], LIMIT)| ==> Take(s[k..], LIMIT)[i].tokenId > cursor
  {
    var r := Take(s[k..], LIMIT);
    forall i | 0 <= i < |r| ensures r[i].tokenId > cursor {
      assert r[i] == s[k + i];
      assert s[k].tokenId <= s[k + i].tokenId;
    }
  }

  /** A run that starts below `cursor` in a descending sequence stays below it. */
  lemma RunBelow(s: seq<StoredToken>, k: nat, cursor: int)
    requires Descending(s) && k <= |s|
    requires k < |s| ==> s[k].tokenId < cursor
    ensures forall i :: 0 <= i < |Take(s[k..], LIMIT)| ==> Take(s[k..], LIMIT)[i].tokenId < cursor
    ensures Descending(Take(s[k..], LIMIT))
  {
    var r := Take(s[k..], LIMIT);
    forall i | 0 <= i < |r| ensures r[i].tokenId < cursor {
      assert r[i] == s[k + i];
      assert s[k].tokenId >= s[k + i].tokenId;
    }
    forall i, j | 0 <= i < j < |r| ensures r[i].tokenId >= r[j].tokenId {
      assert r[i] == s[k + i] && r[j] == s[k + j];
    }
  }

  /** `next` on an ascending collection: the run of at most 24 consecutive
      tokens starting at the first token above the cursor. */
  lemma NextPageIsRun(collection: seq<StoredToken>, cursor: int)
    requires Ascending(collection)
    ensures PageQuery(collection, Int(cursor), Some("next"))
         == Take(collection[FirstWhere(collection, AfterCursor(Int(cursor)))..], LIMIT)
  {
    AfterCursorUpwardClosed(collection, Int(cursor));
    FilterUpwardClosed(collection, AfterCursor(Int(cursor)));
  }

  /** `previous` on an ascending collection: the run of at most 24
      consecutive tokens of the reversed collection starting at the last
      token below the cursor. */
  lemma PreviousPageIsRun(collection: seq<StoredToken>, cursor: int)
    requires Ascending(collection)
    ensures PageQuery(collection, Int(cursor), Some("previous"))
         == Take(Reverse(collection)[FirstWhere(Reverse(collection), BeforeCursor(Int(cursor)))..], LIMIT)
  {
    ReverseDescending(collection);
    BeforeCursorUpwardClosed(Reverse(collection), Int(cursor));
    FilterUpwardClosed(Reverse(collection), BeforeCursor(Int(cursor)));
  }

  /** `next`: at most 24 tokens, every one above the cursor, ascending. */
  lemma NextPage(collection: seq<StoredToken>, cursor: int)
    requires Ascending(collection)
    ensures |PageQuery(collection, Int(cursor), Some("next"))| <= LIMIT
    ensures forall i :: 0 <= i < |PageQuery(collection, Int(cursor), Some("next"))| ==>
              PageQuery(collection, Int(cursor), Some("next"))[i].tokenId > cursor
    ensures Ascending(PageQuery(collection, Int(cursor), Some("next")))
  {
    var k := FirstWhere(collection, AfterCursor(Int(cursor)));
    NextPageIsRun(collection, cursor);
    RunAscending(collection, k);
    RunAbove(collection, k, cursor);
  }

  /** `previous`: at most 24 tokens, every one below the cursor, descending. */
  lemma PreviousPage(collection: seq<StoredToken>, cursor: int)
    requires Ascending(collection)
    ensures |PageQuery(collection, Int(cursor), Some("previous"))| <= LIMIT
    ensures forall i :: 0 <= i < |PageQuery(collection, Int(cursor), Some("previous"))| ==>
              PageQuery(collection, Int(cursor), Some("previous"))[i].tokenId < cursor
    ensures Descending(PageQuery(collection, Int(cursor), Some("previous")))
  {
    var s := Reverse(collection);
    var k := FirstWhere(s, BeforeCursor(Int(cursor)));
    PreviousPageIsRun(collection, cursor);
    ReverseDescending(collection);
    RunBelow(s, k, cursor);
  }

  /** A cursor that does not parse: `next` lists from the start, `previous`
      lists nothing. */
  lemma NaNCursor(collection: seq<StoredToken>)
    ensures PageQuery(collection, NaN, Some("next")) == Take(collection, LIMIT)
    ensures PageQuery(collection, NaN, Some("previous")) == []
  {
    FilterAll(collection, AfterCursor(NaN));
    FilterNone(Reverse(collection), BeforeCursor(NaN));
  }

  /** The route without parameters lists the first 24 tokens as stored. */
  lemma BareRoute(collection: seq<StoredToken>)
    ensures PageQuery(collection, CursorOf(None), None) == collection[..Min(LIMIT, |collection|)]
  {
  }

  /** A decimal `tokenId` parameter is the cursor it spells. */
  lemma CursorOfDigits(s: string)
    requires IsDigitString(s)
    ensures CursorOf(Some(s)) == Int(DecimalValue(s))
  {
    ParseIntOfDigits(s, "");
    assert s + "" == s;
  }

  /** Tokens 1, 3, 5, 9: after cursor 3 come 5 and 9. */
  lemma NextScenario(t1: StoredToken, t3: StoredToken, t5: StoredToken, t9: StoredToken)
    requires t1.tokenId == 1 && t3.tokenId == 3 && t5.tokenId == 5 && t9.tokenId == 9
    ensures PageQuery([t1, t3, t5, t9], Int(3), Some("next")) == [t5, t9]
  {
    assert [t1, t3, t5, t9] == [t1, t3] + [t5, t9];
    FilterPassingSuffix([t1, t3], [t5, t9], AfterCursor(Int(3)));
  }

  /** Tokens 1, 3, 5, 9: before cursor 5 come 3 and 1, largest first. */
  lemma PreviousScenario(t1: StoredToken, t3: StoredToken, t5: StoredToken, t9: StoredToken)
    requires t1.tokenId == 1 && t3.tokenId == 3 && t5.tokenId == 5 && t9.tokenId == 9
    ensures PageQuery([t1, t3, t5, t9], Int(5), Some("previous")) == [t3, t1]
  {
    assert Reverse([t1, t3, t5, t9]) == [t9, t5] + [t3, t1];
    FilterPassingSuffix([t9, t5], [t3, t1], BeforeCursor(Int(5)));
  }
}
