/**
 * The legacy `API` class (aw_api/api.py): the cookie clean-up done at
 * construction, the request URLs, the older statistics parser that returns
 * a five-key dictionary, and the older roster parser that returns rows
 * without a role. Its page checks are those of `Parser`, with the player
 * errors raised without a nickname.
 */
module Api {
  import opened Common
  import opened Text
  import opened Html
  import opened Player
  import opened Parser

  // ---------------------------------------------------------------------
  // Cookies

  /** One cookie as exported by the browser extension: its `name` and `value` entries. */
  datatype CookieItem = CookieItem(name: string, value: string)

  /** The dictionary the loop builds: each item in turn sets its name to its value. */
  function CookieMap(items: seq<CookieItem>): map<string, string>
    decreases |items|
  {
    if items == [] then map[]
    else
      var last := items[|items| - 1];
      CookieMap(items[..|items| - 1])[last.name := last.value]
  }

  /** `__prepare_cookie`: a loop that stores every item's value under its name. */
  method PrepareCookie(raw: seq<CookieItem>) returns (cookie: map<string, string>)
    ensures cookie == CookieMap(raw)
  {
    cookie := map[];
    var i := 0;
    while i < |raw|
      invariant 0 <= i <= |raw|
      invariant cookie == CookieMap(raw[..i])
    {
      assert raw[..i + 1][..i] == raw[..i];
      cookie := cookie[raw[i].name := raw[i].value];
      i := i + 1;
    }
    assert raw[..i] == raw;
  }

  /** The keys of the cookie dictionary are exactly the names of the items. */
  lemma {:induction false} CookieMapKeys(items: seq<CookieItem>, key: string)
    ensures key in CookieMap(items) <==> exists i :: 0 <= i < |items| && items[i].name == key
    decreases |items|
  {
    if items != [] {
      var init := items[..|items| - 1];
      CookieMapKeys(init, key);
      if exists i :: 0 <= i < |items| && items[i].name == key {
        var i :| 0 <= i < |items| && items[i].name == key;
        if i < |init| {
          assert init[i].name == key;
        }
      }
      if exists i :: 0 <= i < |init| && init[i].name == key {
        var i :| 0 <= i < |init| && init[i].name == key;
        assert items[i].name == key;
      }
    }
  }

  /** A name is mapped to the value of the last item that carries it. */
  lemma {:induction false} CookieMapLastWins(items: seq<CookieItem>, i: nat)
    requires i < |items|
    requires forall j :: i < j < |items| ==> items[j].name != items[i].name
    ensures items[i].name in CookieMap(items) && CookieMap(items)[items[i].name] == items[i].value
    decreases |items|
  {
    if i < |items| - 1 {
      var init := items[..|items| - 1];
      assert forall j :: i < j < |init| ==> init[j] == items[j];
      CookieMapLastWins(init, i);
    }
  }

  /**
   * The cookie the object keeps: none for an empty (falsy) export, otherwise
   * the prepared dictionary: its keys are the exported names, and each name
   * maps to the value of the last item that carries it.
   */
  function InitialCookie(raw: seq<CookieItem>): (r: Option<map<string, string>>)
    ensures r.None? <==> raw == []
    ensures r.Some? ==> r.value == CookieMap(raw)
    ensures r.Some? ==> forall key :: key in r.value <==> exists i :: 0 <= i < |raw| && raw[i].name == key
    ensures r.Some? ==> forall i :: 0 <= i < |raw| && (forall j :: i < j < |raw| ==> raw[j].name != raw[i].name) ==>
                          raw[i].name in r.value && r.value[raw[i].name] == raw[i].value
  {
    if raw == [] then None
    else
      forall key ensures key in CookieMap(raw) <==> exists i :: 0 <= i < |raw| && raw[i].name == key {
        CookieMapKeys(raw, key);
      }
      forall i | 0 <= i < |raw| && (forall j :: i < j < |raw| ==> raw[j].name != raw[i].name)
        ensures raw[i].name in CookieMap(raw) && CookieMap(raw)[raw[i].name] == raw[i].value
      {
        CookieMapLastWins(raw, i);
      }
      Some(CookieMap(raw))
  }

  // ---------------------------------------------------------------------
  // URLs

  /** The base URL of a player statistics page. */
  const UserStatsUrl: string := "https://armata.my.games/dynamic/user/?a=stats"

  /** The base URL of a battalion page. */
  const BattalionStatsUrl: string := "https://armata.my.games/dynamic/aliance/index.php?a=index"

  lemma NumberPlain(i: int)
    ensures '&' !in ShowInt(i)
  {
    var s := ShowInt(i);
    forall k | 0 <= k < |s| ensures s[k] != '&' {
      assert IsDigit(s[k]) || s[k] == '-';
    }
  }

  /** `name=value` */
  function Param(key: string, value: string): string {
    key + "=" + value
  }

  lemma ParamPlain(key: string, value: string)
    requires '&' !in key && '&' !in value
    ensures '&' !in Param(key, value)
  {
  }

  /** The parameter names of the request URLs. */
  lemma KeysPlain()
    ensures '&' !in "name" && '&' !in "mode" && '&' !in "data" && '&' !in "type"
    ensures '&' !in "maintype" && '&' !in "day" && '&' !in "ajax"
  {
  }

  /** A numeric parameter has no `&`. */
  lemma NumberParamPlain(key: string, i: int)
    requires '&' !in key
    ensures '&' !in Param(key, ShowInt(i))
  {
    NumberPlain(i);
    ParamPlain(key, ShowInt(i));
  }

  /**
   * A base followed by `&`-separated parameters splits on `&` into the
   * base's own pieces and then each parameter, in order.
   */
  lemma SplitQuery(base: string, params: seq<string>)
    requires params != []
    requires forall k :: 0 <= k < |params| ==> '&' !in params[k]
    ensures Split(Join([base] + params, '&'), '&') == Split(base, '&') + params
  {
    var parts := [base] + params;
    assert parts[1..] == params;
    assert Join(parts, '&') == base + ['&'] + Join(params, '&');
    PiecesConcat(base, '&', Join(params, '&'), Char('&'));
    SplitJoin(params, '&');
  }

  /**
   * `__get_player_statistic_page`'s URL: the base followed by name, mode,
   * data, type, day and ajax, in that order, each after an `&`. Splitting it
   * on `&` gives back the base and then each parameter, so long as the
   * nickname has no `&` of its own.
   */
  function PlayerStatsUrl(nickname: string, mode: int, data: int, tankId: int, day: int, ajax: int): (r: string)
    ensures '&' !in nickname ==>
              Split(r, '&') == Split(UserStatsUrl, '&')
                               + [Param("name", nickname), Param("mode", ShowInt(mode)),
                                  Param("data", ShowInt(data)), Param("type", ShowInt(tankId)),
                                  Param("day", ShowInt(day)), Param("ajax", ShowInt(ajax))]
  {
    var params := [Param("name", nickname), Param("mode", ShowInt(mode)),
                   Param("data", ShowInt(data)), Param("type", ShowInt(tankId)),
                   Param("day", ShowInt(day)), Param("ajax", ShowInt(ajax))];
    if '&' in nickname then Join([UserStatsUrl] + params, '&')
    else
      KeysPlain();
      ParamPlain("name", nickname);
      NumberParamPlain("mode", mode);
      NumberParamPlain("data", data);
      NumberParamPlain("type", tankId);
      NumberParamPlain("day", day);
      NumberParamPlain("ajax", ajax);
      SplitQuery(UserStatsUrl, params);
      Join([UserStatsUrl] + params, '&')
  }

  /** The battalion page URL: the base followed by `&data=` and the id. */
  function BattalionPageUrl(battalionId: int): (r: string)
    ensures Split(r, '&') == Split(BattalionStatsUrl, '&') + [Param("data", ShowInt(battalionId))]
  {
    var params := [Param("data", ShowInt(battalionId))];
    KeysPlain();
    NumberParamPlain("data", battalionId);
    SplitQuery(BattalionStatsUrl, params);
    Join([BattalionStatsUrl] + params, '&')
  }

  // ---------------------------------------------------------------------
  // The legacy statistics dictionary

  /** The keys of the legacy result. */
  const LegacyKeys: set<string> := {"winrate", "battles", "damage", "clantag", "nickname"}

  /**
   * The tag alone: the first whitespace token of the fourth child of
   * `div.clan` cleaned like the newer parser's tag; empty means no battalion.
   * Unlike the newer parser a second token is not needed.
   */
  function LegacyTag(clan: Option<seq<string>>): (r: Result<Option<string>>)
    ensures clan.None? || |clan.value| < 4 ==> r.Err?
    ensures clan.Some? && |clan.value| >= 4 ==> (r.Err? <==> SplitWs(clan.value[3]) == [])
    ensures r.Err? ==> r.error == Malformed(ClanBlock)
    ensures r.Ok? && r.value.Some? ==> r.value.value != [] && '[' !in r.value.value && ']' !in r.value.value
  {
    if clan.None? || |clan.value| < 4 then Err(Malformed(ClanBlock))
    else
      var tokens := SplitWs(clan.value[3]);
      if tokens == [] then Err(Malformed(ClanBlock))
      else
        var tag := CleanTag(tokens[0]);
        if tag == [] then Ok(None) else Ok(Some(tag))
  }

  /** The average damage text: line 4 of the cleaned fourth `div.list_pad`, stripped, from its fourth character. */
  function LegacyDamageText(listPads: seq<string>): (r: Result<string>)
    ensures r.Err? ==> r.error == Malformed(DamageBlock)
  {
    if |listPads| < 4 then Err(Malformed(DamageBlock))
    else
      var lines := Split(CleanHtml(listPads[3]), '\n');
      if |lines| < 5 then Err(Malformed(DamageBlock))
      else Ok(Drop(Strip(lines[4]), 3))
  }

  /** The fields the legacy parser reads, in the order of the code; the first failure is the result. */
  function ReadLegacy(page: PlayerPage): (r: Result<map<string, Value>>)
    ensures r.Ok? ==> r.value.Keys == LegacyKeys
    ensures r.Ok? ==> r.value["nickname"].Text? && NicknameFrom(page.name) == Ok(r.value["nickname"].s)
    ensures r.Ok? ==> (r.value["clantag"] == Null <==> LegacyTag(page.clan) == Ok(None))
  {
    var name :- NicknameFrom(page.name);
    var tag :- LegacyTag(page.clan);
    var battles :- BattlesFrom(page.total);
    var damageText :- LegacyDamageText(page.listPads);
    var winrate :- WinrateFrom(page.yellow);
    var damage :- DamageFrom(damageText);
    Ok(map["winrate" := Num(winrate), "battles" := Int(battles), "damage" := Num(damage),
           "clantag" := OptText(tag), "nickname" := Text(name)])
  }

  /**
   * `__get_player_statistics`: the classification of the newer parser with
   * the nickname left out of the errors, then the five fields.
   */
  function LegacyStatistics(page: PlayerPage): (r: Result<map<string, Value>>)
    ensures ClassifyPlayer(NotificationList(page.paragraphs, page.divs), None).Some? ==>
              r == Err(ClassifyPlayer(NotificationList(page.paragraphs, page.divs), None).value)
    ensures ClassifyPlayer(NotificationList(page.paragraphs, page.divs), None).None? ==> r == ReadLegacy(page)
    ensures r.Ok? ==> r.value.Keys == LegacyKeys
  {
    var verdict := ClassifyPlayer(NotificationList(page.paragraphs, page.divs), None);
    if verdict.Some? then Err(verdict.value) else ReadLegacy(page)
  }

  /**
   * The legacy classification is the newer one with the nickname dropped
   * from the "not found" and "closed" errors.
   */
  lemma LegacyClassification(notes: seq<string>, nickname: Option<string>)
    ensures ClassifyPlayer(notes, None) ==
              match ClassifyPlayer(notes, nickname)
              case Some(UserNotFound(_)) => Some(UserNotFound(None))
              case Some(ClosedStatistics(_)) => Some(ClosedStatistics(None))
              case other => other
  {
  }

  /** Where the newer parser reads a tag and full name, the legacy one reads the same tag. */
  lemma LegacyTagAgrees(clan: Option<seq<string>>)
    requires ClanFrom(clan).Ok?
    ensures LegacyTag(clan) == Ok(ClanFrom(clan).value.0)
  {
  }

  /** The damage text is line 4 of the block, stripped, from its fourth character on. */
  lemma LegacyDamageTextOf(listPads: seq<string>, lines: seq<string>)
    requires |listPads| >= 4 && Split(CleanHtml(listPads[3]), '\n') == lines
    ensures |lines| >= 5 ==> LegacyDamageText(listPads) == Ok(Drop(Strip(lines[4]), 3))
    ensures |lines| < 5 ==> LegacyDamageText(listPads) == Err(Malformed(DamageBlock))
  {
  }

  /** Where the newer parser reads damage and spotting, the legacy one reads the same damage text. */
  lemma LegacyDamageAgrees(listPads: seq<string>)
    requires DamageAndSpotting(listPads).Ok?
    ensures LegacyDamageText(listPads) == Ok(DamageAndSpotting(listPads).value.0)
  {
  }

  /**
   * A page the newer parser reads successfully is read by the legacy parser
   * too, and each of the five keys holds the value of the record's field of
   * that name.
   */
  lemma LegacyIsProjection(page: PlayerPage)
    requires ReadStatistics(page).Ok?
    ensures ReadLegacy(page).Ok?
    ensures forall key :: key in LegacyKeys ==> GetItem(ReadStatistics(page).value, key) == Some(ReadLegacy(page).value[key])
  {
    ReadStatisticsSteps(page);
    LegacyTagAgrees(page.clan);
    LegacyDamageAgrees(page.listPads);
    var p := ReadStatistics(page).value;
    var m := map["winrate" := Num(p.winrate), "battles" := Int(p.battles), "damage" := Num(p.damage),
                 "clantag" := OptText(p.clantag), "nickname" := Text(p.nickname)];
    assert ReadLegacy(page) == Ok(m);
    forall key | key in LegacyKeys ensures GetItem(p, key) == Some(m[key]) {
      KeyLookup(p, key);
    }
  }

  lemma KeyLookup(p: PlayerStatistics, key: string)
    requires key in LegacyKeys
    ensures GetItem(p, key) == Some(map["winrate" := Num(p.winrate), "battles" := Int(p.battles), "damage" := Num(p.damage),
                                        "clantag" := OptText(p.clantag), "nickname" := Text(p.nickname)][key])
  {
  }

  // ---------------------------------------------------------------------
  // The legacy roster

  /** One `{'id', 'nickname'}` dictionary. */
  datatype NicknameRow = NicknameRow(id: int, nickname: string)

  /** A member line as the legacy parser reads it: the same four tokens, the role unused. */
  function LegacyRow(line: string): (r: Result<NicknameRow>)
    ensures r.Err? ==> r.error == Malformed(RosterLine)
  {
    var tokens := RowTokens(line);
    if |tokens| != 4 then Err(Malformed(RosterLine))
    else
      match ParseInt(tokens[1])
      case None => Err(Malformed(RosterLine))
      case Some(id) => Ok(NicknameRow(id, tokens[2]))
  }

  /** The rows without their roles, in the same order. */
  function WithoutRoles(rows: seq<RosterRow>): (r: seq<NicknameRow>)
    ensures |r| == |rows|
    ensures forall i :: 0 <= i < |rows| ==> r[i].id == rows[i].id && r[i].nickname == rows[i].nickname
  {
    seq(|rows|, i requires 0 <= i < |rows| => NicknameRow(rows[i].id, rows[i].nickname))
  }

  /** Reading lines the legacy way is reading them the newer way and dropping the roles. */
  lemma {:induction false} LegacyRowsDropRoles(lines: seq<string>)
    ensures MapAll(lines, LegacyRow) ==
              match MapAll(lines, DecomposeRow)
              case Err(e) => Err(e)
              case Ok(rows) => Ok(WithoutRoles(rows))
    decreases |lines|
  {
    if lines != [] {
      var init, last := lines[..|lines| - 1], lines[|lines| - 1];
      LegacyRowsDropRoles(init);
      match MapAll(init, DecomposeRow)
      case Err(_) =>
      case Ok(rows) =>
        match DecomposeRow(last)
        case Err(_) =>
        case Ok(row) =>
          assert WithoutRoles(rows + [row]) == WithoutRoles(rows) + [NicknameRow(row.id, row.nickname)];
    }
  }

  /** The legacy roster as a value: the checks of the newer parser, then one legacy row per member line. */
  function LegacyRosterOf(page: RosterPage): Result<seq<NicknameRow>> {
    var verdict := RosterCheck(page);
    if verdict.Some? then Err(verdict.value) else MapAll(RosterLines(page), LegacyRow)
  }

  /**
   * The legacy roster fails exactly when the newer one fails, with the same
   * error, and otherwise is the newer roster without its roles.
   */
  lemma LegacyRosterDropsRoles(page: RosterPage)
    ensures RosterOf(page).Err? ==> LegacyRosterOf(page) == Err(RosterOf(page).error)
    ensures RosterOf(page).Ok? ==> LegacyRosterOf(page) == Ok(WithoutRoles(RosterOf(page).value))
  {
    if RosterCheck(page).None? {
      LegacyRowsDropRoles(RosterLines(page));
    }
  }

  /**
   * `__parse_battalion_page_for_nicknames`: the checks of the newer roster
   * parser in the same order, then a pass over the lines of the first
   * `div.cont` that appends an `{'id', 'nickname'}` row per member line.
   */
  method ParseBattalionPageForNicknames(page: RosterPage) returns (r: Result<seq<NicknameRow>>)
    ensures r == LegacyRosterOf(page)
  {
    var verdict := RosterCheck(page);
    if verdict.Some? {
      return Err(verdict.value);
    }
    var lines := Split(page.conts[0], '\n');
    var players: seq<NicknameRow> := [];
    var i := 0;
    while i < |lines|
      invariant 0 <= i <= |lines|
      invariant MapAll(MemberLines(lines[..i]), LegacyRow) == Ok(players)
    {
      var item := lines[i];
      MemberLinesStep(lines, i, LegacyRow, players);
      if StartsWith(item, MemberLinePrefix) {
        var player := LegacyRow(item);
        if player.Err? {
          return Err(player.error);
        }
        players := players + [player.value];
      }
      i := i + 1;
    }
    assert lines[..i] == lines;
    return Ok(players);
  }
}
