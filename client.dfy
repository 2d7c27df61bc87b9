/**
 * The `Client` class (aw_api/client.py) with its `GameMode` enumeration
 * (aw_api/enums.py): the statistics request with mode normalisation, the
 * battalion roster request that turns parsed rows into member entries, and
 * the dispatch on the battalion search response. The HTTP exchange is a
 * parameter: a function from the requested URL to the status code and the
 * page, or the decoded search response itself.
 */
module Client {
  import opened Common
  import opened Text
  import opened Battalion
  import opened Player
  import opened Parser
  import opened Api

  // ---------------------------------------------------------------------
  // Game modes

  /** `GameMode`; `RB` is another name for `RANKED`. */
  datatype GameMode = PVP | PVE | LOW | GLOPS | RANKED

  const RB: GameMode := RANKED

  /** `GameMode.value` */
  function ModeValue(m: GameMode): nat {
    match m
    case PVP => 0
    case PVE => 1
    case LOW => 2
    case GLOPS => 3
    case RANKED => 4
  }

  /** `GameMode(v)`: the member with that value, if any. */
  function ModeOf(v: int): (r: Option<GameMode>)
    ensures r.Some? <==> 0 <= v <= 4
  {
    if v == 0 then Some(PVP)
    else if v == 1 then Some(PVE)
    else if v == 2 then Some(LOW)
    else if v == 3 then Some(GLOPS)
    else if v == 4 then Some(RANKED)
    else None
  }

  /** Each member has its own value in 0..4, and the value names the member back. */
  lemma ModeValueRoundTrip(m: GameMode, v: int)
    ensures ModeValue(m) <= 4
    ensures ModeOf(ModeValue(m)) == Some(m)
    ensures ModeOf(v).Some? ==> ModeValue(ModeOf(v).value) == v
  {
  }

  /** The `mode` argument: a plain number or a `GameMode` member. */
  datatype ModeArg = ModeNumber(n: int) | ModeMember(m: GameMode)

  /** A member is replaced by its value; a number passes through unchanged. */
  function NormaliseMode(mode: ModeArg): (r: int)
    ensures mode.ModeMember? ==> ModeOf(r) == Some(mode.m)
    ensures mode.ModeNumber? ==> r == mode.n
  {
    match mode
    case ModeNumber(n) => n
    case ModeMember(m) => ModeValue(m)
  }

  /**
   * A member and its value select the same mode, so the statistics request
   * made with either is the same; `RB` selects the value of `RANKED`.
   */
  lemma ModeMemberAsNumber(m: GameMode)
    ensures NormaliseMode(ModeMember(m)) == NormaliseMode(ModeNumber(ModeValue(m)))
    ensures NormaliseMode(ModeMember(RB)) == NormaliseMode(ModeNumber(4))
  {
  }

  // ---------------------------------------------------------------------
  // Requests

  /**
   * `__get_player_statistic_page`'s URL: the base followed by name, mode,
   * data, type, maintype, day and ajax, in that order, each after an `&`.
   */
  function ClientStatsUrl(nickname: string, mode: int, data: int, tankId: int, maintype: int, day: int, ajax: int): (r: string)
    ensures '&' !in nickname ==>
              Split(r, '&') == Split(UserStatsUrl, '&')
                               + [Param("name", nickname), Param("mode", ShowInt(mode)),
                                  Param("data", ShowInt(data)), Param("type", ShowInt(tankId)),
                                  Param("maintype", ShowInt(maintype)), Param("day", ShowInt(day)),
                                  Param("ajax", ShowInt(ajax))]
  {
    var params := [Param("name", nickname), Param("mode", ShowInt(mode)),
                   Param("data", ShowInt(data)), Param("type", ShowInt(tankId)),
                   Param("maintype", ShowInt(maintype)), Param("day", ShowInt(day)),
                   Param("ajax", ShowInt(ajax))];
    if '&' in nickname then Join([UserStatsUrl] + params, '&')
    else
      KeysPlain();
      ParamPlain("name", nickname);
      NumberParamPlain("mode", mode);
      NumberParamPlain("data", data);
      NumberParamPlain("type", tankId);
      NumberParamPlain("maintype", maintype);
      NumberParamPlain("day", day);
      NumberParamPlain("ajax", ajax);
      SplitQuery(UserStatsUrl, params);
      Join([UserStatsUrl] + params, '&')
  }

  /** `__get_page`: the page of a 200 response, `BadHTTPStatusCode` for any other status. */
  function GetPage<P>(status: int, page: P): (r: Result<P>)
    ensures r.Ok? <==> status == 200
    ensures r.Ok? ==> r.value == page
    ensures r.Err? ==> r.error == BadHttpStatus(status)
  {
    if status == 200 then Ok(page) else Err(BadHttpStatus(status))
  }

  /**
   * `get_statistic_by_nickname`: the mode normalised, the page of the
   * statistics URL (maintype and ajax at their default 0) fetched, then
   * parsed with the requested nickname labelling the errors.
   */
  function GetStatisticByNickname(nickname: string, mode: ModeArg, playerId: int, tankId: int, day: int,
                                  fetch: string -> (int, PlayerPage)): (r: Result<PlayerStatistics>)
    ensures var response := fetch(ClientStatsUrl(nickname, NormaliseMode(mode), playerId, tankId, 0, day, 0));
            && (response.0 != 200 ==> r == Err(BadHttpStatus(response.0)))
            && (response.0 == 200 ==> r == ParsePlayerStatistics(response.1, Some(nickname)))
  {
    var url := ClientStatsUrl(nickname, NormaliseMode(mode), playerId, tankId, 0, day, 0);
    var response := fetch(url);
    var page :- GetPage(response.0, response.1);
    ParsePlayerStatistics(page, Some(nickname))
  }

  // ---------------------------------------------------------------------
  // Battalion roster

  /** The member entries for parsed rows: nickname, id and role copied, the queried battalion id added. */
  function EntriesOf(rows: seq<RosterRow>, battalionId: int): (r: seq<MemberEntry>)
    ensures |r| == |rows|
    ensures forall i :: 0 <= i < |rows| ==>
              r[i].nickname == rows[i].nickname && r[i].id == rows[i].id
              && r[i].role == Some(rows[i].role) && r[i].battalion_id == battalionId
  {
    seq(|rows|, i requires 0 <= i < |rows| => MemberEntry(rows[i].nickname, rows[i].id, Some(rows[i].role), battalionId))
  }

  /**
   * `get_battalion_players`: the battalion page fetched, its rows parsed,
   * and one member entry appended per row, in order.
   */
  method GetBattalionPlayers(battalionId: int, fetch: string -> (int, RosterPage)) returns (r: Result<seq<MemberEntry>>)
    ensures var response := fetch(BattalionPageUrl(battalionId));
            && (response.0 != 200 ==> r == Err(BadHttpStatus(response.0)))
            && (response.0 == 200 && RosterOf(response.1).Err? ==> r == Err(RosterOf(response.1).error))
            && (response.0 == 200 && RosterOf(response.1).Ok? ==> r == Ok(EntriesOf(RosterOf(response.1).value, battalionId)))
  {
    var response := fetch(BattalionPageUrl(battalionId));
    var page := GetPage(response.0, response.1);
    if page.Err? {
      return Err(page.error);
    }
    var rows := ParseBattalionPlayers(page.value);
    if rows.Err? {
      return Err(rows.error);
    }
    var players: seq<MemberEntry> := [];
    var i := 0;
    while i < |rows.value|
      invariant 0 <= i <= |rows.value|
      invariant players == EntriesOf(rows.value[..i], battalionId)
    {
      var row := rows.value[i];
      EntriesSnoc(rows.value, i, battalionId);
      players := players + [MemberEntry(row.nickname, row.id, Some(row.role), battalionId)];
      i := i + 1;
    }
    assert rows.value[..i] == rows.value;
    return Ok(players);
  }

  lemma EntriesSnoc(rows: seq<RosterRow>, i: nat, battalionId: int)
    requires i < |rows|
    ensures EntriesOf(rows[..i + 1], battalionId)
            == EntriesOf(rows[..i], battalionId) + [MemberEntry(rows[i].nickname, rows[i].id, Some(rows[i].role), battalionId)]
  {
  }

  /** Two members listed by the same roster request compare equal exactly when their rows agree on id and role. */
  lemma EntriesCompareByRow(rows: seq<RosterRow>, battalionId: int, i: nat, j: nat)
    requires i < |rows| && j < |rows|
    ensures MemberEquals(EntriesOf(rows, battalionId)[i], Same(EntriesOf(rows, battalionId)[j]))
            <==> rows[i].id == rows[j].id && rows[i].role == rows[j].role
  {
  }

  // ---------------------------------------------------------------------
  // Battalion search

  /**
   * The decoded search response: its status code, its `error` field and the
   * entries of its `data` object as (key, full name) pairs in key order.
   */
  datatype SearchResponse = SearchResponse(status: int, error: int, data: seq<(string, string)>)

  /** One search result: the full name, and the key read as an integer. */
  function SearchEntryOf(item: (string, string)): (r: Result<SearchEntry>)
    ensures r.Ok? <==> ParseInt(item.0).Some?
    ensures r.Ok? ==> r.value == SearchEntry(item.1, ParseInt(item.0).value)
    ensures r.Err? ==> r.error == Malformed(SearchKey)
  {
    match ParseInt(item.0)
    case None => Err(Malformed(SearchKey))
    case Some(id) => Ok(SearchEntry(item.1, id))
  }

  /**
   * What `search_battalion` makes of a response: with status 200, error 0
   * gives the entries, 1 a too-short query carrying its length and 2 a
   * name not found carrying the query; anything else is a bad status.
   */
  function SearchOutcome(query: string, response: SearchResponse): (r: Result<seq<SearchEntry>>)
  {
    if response.status == 200 && response.error == 0 then MapAll(response.data, SearchEntryOf)
    else if response.status == 200 && response.error == 1 then Err(TooShortQuery(|query|))
    else if response.status == 200 && response.error == 2 then Err(NotFoundByName(query))
    else Err(BadHttpStatus(response.status))
  }

  /**
   * The search gives results exactly for status 200 with error 0 and keys
   * that are all integers: one entry per key, in key order, naming the
   * battalion and carrying the key as its id.
   */
  lemma SearchResults(query: string, response: SearchResponse)
    ensures SearchOutcome(query, response).Ok? <==>
              response.status == 200 && response.error == 0
              && forall i :: 0 <= i < |response.data| ==> ParseInt(response.data[i].0).Some?
    ensures SearchOutcome(query, response).Ok? ==>
              |SearchOutcome(query, response).value| == |response.data|
              && forall i :: 0 <= i < |response.data| ==>
                   SearchOutcome(query, response).value[i] == SearchEntry(response.data[i].1, ParseInt(response.data[i].0).value)
  {
    MapAllOk(response.data, SearchEntryOf);
  }

  /** Which error a failed search reports, by status and error code. */
  lemma SearchErrors(query: string, response: SearchResponse)
    ensures response.status != 200 ==> SearchOutcome(query, response) == Err(BadHttpStatus(response.status))
    ensures response.status == 200 && response.error == 1 ==> SearchOutcome(query, response) == Err(TooShortQuery(|query|))
    ensures response.status == 200 && response.error == 2 ==> SearchOutcome(query, response) == Err(NotFoundByName(query))
    ensures response.status == 200 && response.error !in {0, 1, 2} ==> SearchOutcome(query, response) == Err(BadHttpStatus(200))
    ensures response.status == 200 && response.error == 0 && SearchOutcome(query, response).Err? ==>
              SearchOutcome(query, response).error == Malformed(SearchKey)
  {
    if response.status == 200 && response.error == 0 && SearchOutcome(query, response).Err? {
      MapAllOk(response.data, SearchEntryOf);
      var k :| 0 <= k < |response.data| && SearchEntryOf(response.data[k]).Err?;
      FirstFailure(response.data, k);
    }
  }

  /** The first element that fails, below any given failing one. */
  lemma FirstFailure(data: seq<(string, string)>, k: nat)
    requires k < |data| && SearchEntryOf(data[k]).Err?
    ensures MapAll(data, SearchEntryOf) == Err(Malformed(SearchKey))
    decreases k
  {
    if exists j :: 0 <= j < k && SearchEntryOf(data[j]).Err? {
      var j :| 0 <= j < k && SearchEntryOf(data[j]).Err?;
      FirstFailure(data, j);
    } else {
      MapAllFirstError(data, SearchEntryOf, k);
    }
  }

  /** `search_battalion`: the dispatch on the response, appending one entry per key of `data`. */
  method SearchBattalion(query: string, response: SearchResponse) returns (r: Result<seq<SearchEntry>>)
    ensures r == SearchOutcome(query, response)
  {
    if response.status == 200 {
      if response.error == 0 {
        var result: seq<SearchEntry> := [];
        var i := 0;
        while i < |response.data|
          invariant 0 <= i <= |response.data|
          invariant MapAll(response.data[..i], SearchEntryOf) == Ok(result)
        {
          var entry := SearchEntryOf(response.data[i]);
          MapAllStep(response.data, i, SearchEntryOf, result);
          if entry.Err? {
            return Err(entry.error);
          }
          result := result + [entry.value];
          i := i + 1;
        }
        assert response.data[..i] == response.data;
        return Ok(result);
      }
      if response.error == 1 {
        return Err(TooShortQuery(|query|));
      }
      if response.error == 2 {
        return Err(NotFoundByName(query));
      }
    }
    return Err(BadHttpStatus(response.status));
  }
}
