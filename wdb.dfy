/**
 * The per-agent policy-monitoring store (`wazuhdb::WazuhDB`) as an oracle
 * with a query log, and `searchAndParse`, which classifies its replies.
 */
module WazuhDb {
  import opened Util

  /** `wazuhdb::QueryResultCodes`. */
  datatype QueryResultCode = Ok | Due | Err | Ignore | Unknown

  /** What `tryQueryAndParseResult` returns: a code and maybe a payload. */
  datatype Reply = Reply(code: QueryResultCode, payload: Option<string>)

  datatype SearchResult = Found | NotFound | Error

  /**
   * The classification of a store reply done by `searchAndParse`: an `Ok`
   * reply whose payload starts with "found" is `Found`, carrying the text
   * after "found " when `parse` is set (an `Error` when there is no such
   * text to cut); one starting with "not found" is `NotFound`; anything else
   * is an `Error`.
   */
  function ParseReply(reply: Reply, parse: bool): (r: (SearchResult, string))
    ensures r.0 == Found <==>
      reply.code == Ok && reply.payload.Some? && StartsWith(reply.payload.value, "found")
      && (parse ==> |reply.payload.value| >= 6)
    ensures r.0 == Found && parse ==> r.1 == reply.payload.value[6..]
    ensures r.0 == NotFound <==>
      reply.code == Ok && reply.payload.Some? && !StartsWith(reply.payload.value, "found")
      && StartsWith(reply.payload.value, "not found")
    ensures r.0 != Found || !parse ==> r.1 == ""
  {
    if reply.code == Ok && reply.payload.Some? then
      var p := reply.payload.value;
      if StartsWith(p, "found") then
        if !parse then (Found, "")
        else if |p| >= 6 then (Found, p[6..])
        else (Error, "")
      else if StartsWith(p, "not found") then (NotFound, "")
      else (Error, "")
    else (Error, "")
  }

  /** A reply written the way the store answers a hit parses back to its payload. */
  lemma FoundRoundTrip(payload: string)
    ensures ParseReply(Reply(Ok, Some("found " + payload)), true) == (Found, payload)
  {
    assert ("found " + payload)[..5] == "found";
    assert ("found " + payload)[6..] == payload;
  }

  lemma NotFoundReply()
    ensures ParseReply(Reply(Ok, Some("not found")), true) == (NotFound, "")
  {
    assert "not found"[..5] != "found" by {
      assert "not found"[0] != "found"[0];
    }
  }

  /** Any reply without an `Ok` code, or without a payload, is an error. */
  lemma FailedReplyIsError(reply: Reply, parse: bool)
    requires reply.code != Ok || reply.payload.None?
    ensures ParseReply(reply, parse) == (Error, "")
  {
  }

  class WazuhDB {
    /** The store's answer to a query, given the queries issued before it. */
    const answer: (seq<string>, string) -> Reply
    /** Every query issued so far, oldest first. */
    var log: seq<string>

    constructor(answer: (seq<string>, string) -> Reply)
      ensures this.answer == answer && log == []
    {
      this.answer := answer;
      log := [];
    }

    method TryQueryAndParseResult(query: string) returns (r: Reply)
      modifies this
      ensures log == old(log) + [query]
      ensures r == answer(old(log), query)
    {
      r := answer(log, query);
      log := log + [query];
    }
  }

  /** `searchAndParse`: one query, its reply classified. */
  method SearchAndParse(query: string, wdb: WazuhDB, parse: bool) returns (result: SearchResult, payload: string)
    modifies wdb
    ensures wdb.log == old(wdb.log) + [query]
    ensures (result, payload) == ParseReply(wdb.answer(old(wdb.log), query), parse)
  {
    var reply := wdb.TryQueryAndParseResult(query);
    result, payload := Error, "";
    if reply.code == Ok && reply.payload.Some? {
      var p := reply.payload.value;
      if StartsWith(p, "found") {
        result := Found;
        if parse {
          if |p| >= 6 {
            payload := p[6..];
          } else {
            result := Error;
          }
        }
      } else if StartsWith(p, "not found") {
        result := NotFound;
      }
    }
  }
}
