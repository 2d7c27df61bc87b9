/**
 * `Parser` (aw_api/parser.py): classification of a fetched page and the
 * extraction of a player's statistics or a battalion's roster from it.
 *
 * The HTML parser's lookups are inputs: a page is given as the `str()` of
 * the elements the code asks for (`find` results are None when absent, and
 * `str(None)` is the text "None"). A Python exception raised by a page of
 * unexpected shape (an index out of range, a failed `int()`/`float()`, an
 * attribute of None) is `Malformed` naming the part of the page involved,
 * and the first one raised in the code's evaluation order is the one returned.
 */
module Parser {
  import opened Common
  import opened Text
  import opened Html
  import opened Tiers
  import opened Player

  // ---------------------------------------------------------------------
  // The notices the site shows instead of the content

  /** The paragraph shown to a visitor who is not logged in (two variants of the sign-up link). */
  const NotAuthTexts: seq<string> := [
    "<p>Для просмотра данной страницы вам необходимо авторизоваться или <a href=\"/user/register/\">зарегистрироваться</a> на сайте.</p>",
    "<p>Для просмотра данной страницы вам необходимо авторизоваться или <a href=\"\" onclick=\"__GEM.showSignup();return false;\" target=\"_blank\">зарегистрироваться</a> на сайте.</p>"
  ]

  /** The notice on a battalion page for a visitor who is not logged in. */
  const NotAuthBattalionText: string := "<div class=\"node_notice warn border\">Необходимо авторизоваться.</div>"

  /** The notice for a player who has hidden their statistics. */
  const ClosedText: string := "<div class=\"node_notice warn border\">Пользователь закрыл доступ!</div>"

  /** The notice for a nickname that does not exist. */
  const NotFoundText: string := "<div class=\"node_notice warn border\">Пользователь не найден!</div>"

  /** The whole response for a battalion id that does not exist: a JSON redirect. */
  const BattalionMissingPage: string := "{\"redirect\":\"\\/alliance\\/top\"}"

  /** `str(x)` of a lookup result that may be None. */
  function Str(found: Option<string>): string {
    match found
    case None => "None"
    case Some(s) => s
  }

  /** The `<p>` elements of the page, or its `<div>` elements when it has no `<p>`. */
  function NotificationList(paragraphs: seq<string>, divs: seq<string>): seq<string> {
    if paragraphs != [] then paragraphs else divs
  }

  /**
   * The checks on the first notification, in order: not logged in, no such
   * player, statistics hidden. None when the page is a statistics page. The
   * three notices differ, so each error is raised exactly for its own text.
   */
  function ClassifyPlayer(notes: seq<string>, nickname: Option<string>): (r: Option<Error>)
    ensures notes == [] <==> r == Some(Malformed(Notifications))
    ensures r == Some(NotAuth) <==> notes != [] && notes[0] in NotAuthTexts
    ensures r == Some(UserNotFound(nickname)) <==> notes != [] && notes[0] == NotFoundText
    ensures r == Some(ClosedStatistics(nickname)) <==> notes != [] && notes[0] == ClosedText
    ensures r.None? <==> notes != [] && notes[0] !in NotAuthTexts && notes[0] != NotFoundText && notes[0] != ClosedText
  {
    if notes == [] then Some(Malformed(Notifications))
    else if notes[0] in NotAuthTexts then Some(NotAuth)
    else if NotFoundText == notes[0] then Some(UserNotFound(nickname))
    else if ClosedText == notes[0] then Some(ClosedStatistics(nickname))
    else None
  }

  // ---------------------------------------------------------------------
  // Player statistics

  /** What the page holds about the per-tier breakdown. */
  datatype TierSection =
    | NoTierStats                     // no div.game_stats3
    | NoDiagPad                       // div.game_stats3 without a div.diag_pad
    | DiagPad(children: seq<TierNode>) // the children of div.diag_pad

  /** A player statistics page, as the lookups the parser makes see it. */
  datatype PlayerPage = PlayerPage(
    paragraphs: seq<string>,        // every <p>
    divs: seq<string>,              // every <div>
    name: Option<string>,           // div.name
    clan: Option<seq<string>>,      // the children (.contents) of div.clan
    total: Option<string>,          // div.total
    listPads: seq<string>,          // every div.list_pad
    killDivs: Option<seq<string>>,  // the divs inside #profile_main_cont > div.game_stats2 > div.list_pad;
                                    // None when a link of that chain is missing
    yellow: Option<string>,         // span.yellow
    tiers: TierSection)

  /** The nickname: the second line of the cleaned `div.name`. */
  function NicknameFrom(name: Option<string>): (r: Result<string>)
    ensures r.Ok? ==> '\n' !in r.value
    ensures r.Err? <==> |Split(CleanHtml(Str(name)), '\n')| < 2
    ensures r.Err? ==> r.error == Malformed(NameBlock)
  {
    var lines := Split(CleanHtml(Str(name)), '\n');
    if |lines| < 2 then Err(Malformed(NameBlock))
    else
      PiecesAreUnseparated(CleanHtml(Str(name)), Char('\n'), 1);
      Ok(lines[1])
  }

  /** A token with one piece of markup and every `[` and `]` removed. */
  function Unbracket(token: string, markup: string): (r: string)
    requires markup != []
    ensures '[' !in r && ']' !in r
  {
    var a := Replace(token, markup, "");
    var b := Replace(a, "[", "");
    ReplaceDeletesChar(a, '[');
    ReplaceDeletesChar(b, ']');
    ReplaceKeepsAbsent(b, "]", "", '[');
    Replace(b, "]", "")
  }

  /** The battalion tag: the first token with `<span>`, `[` and `]` removed. */
  function CleanTag(token: string): string {
    Unbracket(token, "<span>")
  }

  /** The battalion's full name: the second token with `</span>`, `[` and `]` removed. */
  function CleanFullName(token: string): string {
    Unbracket(token, "</span>")
  }

  /**
   * Tag and full name from the fourth child of `div.clan`, split on
   * whitespace. An empty tag means no battalion: both are then absent,
   * and otherwise both are present.
   */
  function ClanFrom(clan: Option<seq<string>>): (r: Result<(Option<string>, Option<string>)>)
    ensures r.Ok? ==> (r.value.0.None? <==> r.value.1.None?)
    ensures r.Ok? && r.value.0.Some? ==> r.value.0.value != []
    ensures clan.None? || |clan.value| < 4 ==> r.Err?
    ensures clan.Some? && |clan.value| >= 4 ==> (r.Err? <==> |SplitWs(clan.value[3])| < 2)
    ensures r.Err? ==> r.error == Malformed(ClanBlock)
  {
    if clan.None? || |clan.value| < 4 then Err(Malformed(ClanBlock))
    else
      var tokens := SplitWs(clan.value[3]);
      if |tokens| < 2 then Err(Malformed(ClanBlock))
      else
        var tag := CleanTag(tokens[0]);
        var fullName := CleanFullName(tokens[1]);
        if |tag| == 0 then Ok((None, None)) else Ok((Some(tag), Some(fullName)))
  }

  /**
   * Battles played: the last whitespace token of the cleaned `div.total`
   * with every "сыграно" removed; an empty remainder means 0, anything else
   * must be an integer.
   */
  function BattlesFrom(total: Option<string>): (r: Result<int>)
    ensures r.Err? ==> r.error == Malformed(TotalBlock)
  {
    var words := SplitWs(CleanHtml(Str(total)));
    if words == [] then Err(Malformed(TotalBlock))
    else
      var digits := Replace(words[|words| - 1], PlayedWord, "");
      if digits == [] then Ok(0)
      else match ParseInt(digits)
        case None => Err(Malformed(TotalBlock))
        case Some(n) => Ok(n)
  }

  /**
   * From the fourth `div.list_pad`, cleaned and split into lines: the average
   * damage text (line 4, stripped, from its fourth character on; converted
   * later) and the spotting total (third token of line 6 with
   * "разведданным" removed; empty means 0.0).
   */
  function DamageAndSpotting(listPads: seq<string>): (r: Result<(string, real)>)
    ensures r.Err? ==> r.error in {Malformed(DamageBlock), Malformed(SpottingValue)}
  {
    if |listPads| < 4 then Err(Malformed(DamageBlock))
    else
      var lines := Split(CleanHtml(listPads[3]), '\n');
      if |lines| < 5 then Err(Malformed(DamageBlock))
      else
        var damage := Drop(Strip(lines[4]), 3);
        if |lines| < 7 then Err(Malformed(DamageBlock))
        else
          var words := SplitWs(lines[6]);
          if |words| < 3 then Err(Malformed(DamageBlock))
          else
            var spotting := Replace(words[2], SpottedWord, "");
            if spotting == [] then Ok((damage, 0.0))
            else match ParseDecimal(spotting)
              case None => Err(Malformed(SpottingValue))
              case Some(v) => Ok((damage, v))
  }

  /**
   * Average kills: the last token of the cleaned third div of the kills
   * block, from its fourth character on; empty means 0.0.
   */
  function KillsFrom(killDivs: Option<seq<string>>): (r: Result<real>)
    ensures r.Err? ==> r.error == Malformed(KillsBlock)
  {
    if killDivs.None? || |killDivs.value| < 3 then Err(Malformed(KillsBlock))
    else
      var words := SplitWs(CleanHtml(killDivs.value[2]));
      if words == [] then Err(Malformed(KillsBlock))
      else
        var kills := Drop(words[|words| - 1], 3);
        if kills == [] then Ok(0.0)
        else match ParseDecimal(kills)
          case None => Err(Malformed(KillsBlock))
          case Some(v) => Ok(v)
  }

  /** The battle count of each tier, when the page has a tier breakdown. */
  function LevelsFrom(tiers: TierSection): (r: Result<Option<seq<int>>>)
    ensures r.Ok? && r.value.Some? ==> tiers.DiagPad? && MapAll(WithoutNewlines(tiers.children), TierCount) == Ok(r.value.value)
    ensures r.Ok? && r.value.None? <==> tiers.NoTierStats?
    ensures r.Err? ==> r.error == Malformed(TierBlock)
  {
    match tiers
    case NoTierStats => Ok(None)
    case NoDiagPad => Err(Malformed(TierBlock))
    case DiagPad(children) =>
      MapAllErrOf(WithoutNewlines(children), TierCount);
      match MapAll(WithoutNewlines(children), TierCount)
      case Err(e) => Err(e)
      case Ok(levels) => Ok(Some(levels))
  }

  /** The winrate: the cleaned `span.yellow` without its last character (the `%`). */
  function WinrateFrom(yellow: Option<string>): (r: Result<real>)
    ensures r.Err? ==> r.error == Malformed(WinrateValue)
  {
    match ParseDecimal(DropLast(CleanHtml(Str(yellow))))
    case None => Err(Malformed(WinrateValue))
    case Some(v) => Ok(v)
  }

  function DamageFrom(text: string): (r: Result<real>)
    ensures r.Err? ==> r.error == Malformed(DamageValue)
  {
    match ParseDecimal(text)
    case None => Err(Malformed(DamageValue))
    case Some(v) => Ok(v)
  }

  /** Spotting total per battle; 0.0 without battles. */
  function AverageSpotting(total: real, battles: int): (r: real)
    ensures battles == 0 ==> r == 0.0
    ensures battles != 0 ==> r * battles as real == total
  {
    if battles != 0 then total / battles as real else 0.0
  }

  /** The weighted tier total per battle; absent without a breakdown or without battles. */
  function AverageLevel(levels: Option<seq<int>>, battles: int): (r: Option<real>)
    ensures r.None? <==> levels.None? || battles == 0
    ensures r.Some? ==> r.value * battles as real == LevelSum(levels.value) as real
  {
    if levels.Some? && battles != 0 then Some(LevelSum(levels.value) as real / battles as real) else None
  }

  /**
   * The fields of a statistics page, read in the order of the code; the
   * first failure is the result. Tag and full name are absent together, and
   * the average tier is absent exactly without a breakdown or without battles.
   */
  function ReadStatistics(page: PlayerPage): (r: Result<PlayerStatistics>)
    ensures r.Ok? ==> NicknameFrom(page.name) == Ok(r.value.nickname)
    ensures r.Ok? ==> (r.value.clantag.None? <==> r.value.battalion_full.None?)
    ensures r.Ok? ==> (r.value.average_level.None? <==> page.tiers.NoTierStats? || r.value.battles == 0)
  {
    var name :- NicknameFrom(page.name);
    var clan :- ClanFrom(page.clan);
    var battles :- BattlesFrom(page.total);
    var damageAndSpotting :- DamageAndSpotting(page.listPads);
    var kills :- KillsFrom(page.killDivs);
    var levels :- LevelsFrom(page.tiers);
    var winrate :- WinrateFrom(page.yellow);
    var damage :- DamageFrom(damageAndSpotting.0);
    Ok(PlayerStatistics(
      winrate := winrate,
      battles := battles,
      damage := damage,
      clantag := clan.0,
      battalion_full := clan.1,
      average_spotting := AverageSpotting(damageAndSpotting.1, battles),
      average_kills := kills,
      average_level := AverageLevel(levels, battles),
      nickname := name))
  }

  /** A successful read: every step succeeded and the record is assembled from their values. */
  lemma ReadStatisticsSteps(page: PlayerPage)
    requires ReadStatistics(page).Ok?
    ensures NicknameFrom(page.name).Ok? && ClanFrom(page.clan).Ok? && BattlesFrom(page.total).Ok?
    ensures DamageAndSpotting(page.listPads).Ok? && KillsFrom(page.killDivs).Ok? && LevelsFrom(page.tiers).Ok?
    ensures WinrateFrom(page.yellow).Ok? && DamageFrom(DamageAndSpotting(page.listPads).value.0).Ok?
    ensures var battles := BattlesFrom(page.total).value;
            ReadStatistics(page).value == PlayerStatistics(
              winrate := WinrateFrom(page.yellow).value,
              battles := battles,
              damage := DamageFrom(DamageAndSpotting(page.listPads).value.0).value,
              clantag := ClanFrom(page.clan).value.0,
              battalion_full := ClanFrom(page.clan).value.1,
              average_spotting := AverageSpotting(DamageAndSpotting(page.listPads).value.1, battles),
              average_kills := KillsFrom(page.killDivs).value,
              average_level := AverageLevel(LevelsFrom(page.tiers).value, battles),
              nickname := NicknameFrom(page.name).value)
  {
  }

  /** The error of a result, None when it succeeded. */
  function ErrorOf<T>(r: Result<T>): Option<Error> {
    if r.Err? then Some(r.error) else None
  }

  /** The first error of a sequence of outcomes, None when there is none. */
  function FirstError(steps: seq<Option<Error>>): (r: Option<Error>)
    ensures r.None? <==> forall i :: 0 <= i < |steps| ==> steps[i].None?
    ensures r.Some? ==> exists i :: 0 <= i < |steps| && steps[i] == r && forall j :: 0 <= j < i ==> steps[j].None?
    decreases |steps|
  {
    if steps == [] then None
    else if steps[0].Some? then steps[0]
    else
      var r := FirstError(steps[1..]);
      assert r.Some? ==> exists i :: 0 <= i < |steps| && steps[i] == r && forall j :: 0 <= j < i ==> steps[j].None? by {
        if r.Some? {
          var i :| 0 <= i < |steps[1..]| && steps[1..][i] == r && forall j :: 0 <= j < i ==> steps[1..][j].None?;
          assert steps[i + 1] == r && forall j :: 0 <= j < i + 1 ==> steps[j].None?;
        }
      }
      r
  }

  /**
   * The outcome of each reader in the order the code runs them. The damage
   * value is converted last, from the damage text, so it is only attempted
   * when that text was read.
   */
  function StepErrors(page: PlayerPage): seq<Option<Error>> {
    var damageAndSpotting := DamageAndSpotting(page.listPads);
    [ErrorOf(NicknameFrom(page.name)), ErrorOf(ClanFrom(page.clan)), ErrorOf(BattlesFrom(page.total)),
     ErrorOf(damageAndSpotting), ErrorOf(KillsFrom(page.killDivs)), ErrorOf(LevelsFrom(page.tiers)),
     ErrorOf(WinrateFrom(page.yellow)),
     if damageAndSpotting.Ok? then ErrorOf(DamageFrom(damageAndSpotting.value.0)) else None]
  }

  /**
   * A read fails exactly when some reader fails, and then with the error of
   * the first reader, in the code's order, that fails: a malformed part of
   * the page is reported only when every part read before it is well formed.
   */
  lemma ReadStatisticsFirstFailure(page: PlayerPage)
    ensures ErrorOf(ReadStatistics(page)) == FirstError(StepErrors(page))
  {
    var damageAndSpotting := DamageAndSpotting(page.listPads);
    var s0, s1, s2 := ErrorOf(NicknameFrom(page.name)), ErrorOf(ClanFrom(page.clan)), ErrorOf(BattlesFrom(page.total));
    var s3, s4, s5 := ErrorOf(damageAndSpotting), ErrorOf(KillsFrom(page.killDivs)), ErrorOf(LevelsFrom(page.tiers));
    var s6 := ErrorOf(WinrateFrom(page.yellow));
    var s7 := if damageAndSpotting.Ok? then ErrorOf(DamageFrom(damageAndSpotting.value.0)) else None;
    var first :=
      if s0.Some? then s0 else if s1.Some? then s1 else if s2.Some? then s2 else if s3.Some? then s3
      else if s4.Some? then s4 else if s5.Some? then s5 else if s6.Some? then s6 else s7;
    assert FirstError(StepErrors(page)) == first by {
      assert StepErrors(page) == [s0, s1, s2, s3, s4, s5, s6, s7];
      FirstOfEight(s0, s1, s2, s3, s4, s5, s6, s7);
    }
  }

  /** The first error of eight outcomes, outcome by outcome. */
  lemma FirstOfEight(s0: Option<Error>, s1: Option<Error>, s2: Option<Error>, s3: Option<Error>,
                     s4: Option<Error>, s5: Option<Error>, s6: Option<Error>, s7: Option<Error>)
    ensures FirstError([s0, s1, s2, s3, s4, s5, s6, s7]) ==
      if s0.Some? then s0 else if s1.Some? then s1 else if s2.Some? then s2 else if s3.Some? then s3
      else if s4.Some? then s4 else if s5.Some? then s5 else if s6.Some? then s6 else s7
  {
    FirstErrorCons(s0, [s1, s2, s3, s4, s5, s6, s7]);
    FirstErrorCons(s1, [s2, s3, s4, s5, s6, s7]);
    FirstErrorCons(s2, [s3, s4, s5, s6, s7]);
    FirstErrorCons(s3, [s4, s5, s6, s7]);
    FirstErrorCons(s4, [s5, s6, s7]);
    FirstErrorCons(s5, [s6, s7]);
    FirstErrorCons(s6, [s7]);
    FirstErrorCons(s7, []);
  }

  lemma FirstErrorCons(x: Option<Error>, rest: seq<Option<Error>>)
    ensures FirstError([x] + rest) == if x.Some? then x else FirstError(rest)
  {
    assert ([x] + rest)[1..] == rest;
  }

  /**
   * `parse_player_statistics`. The classification comes first and an error
   * there stops the parse; then the fields are read.
   */
  function ParsePlayerStatistics(page: PlayerPage, nickname: Option<string>): (r: Result<PlayerStatistics>)
    ensures ClassifyPlayer(NotificationList(page.paragraphs, page.divs), nickname).Some? ==>
              r == Err(ClassifyPlayer(NotificationList(page.paragraphs, page.divs), nickname).value)
    ensures ClassifyPlayer(NotificationList(page.paragraphs, page.divs), nickname).None? ==> r == ReadStatistics(page)
    ensures r.Ok? ==> NicknameFrom(page.name) == Ok(r.value.nickname)
    ensures r.Ok? ==> (r.value.clantag.None? <==> r.value.battalion_full.None?)
    ensures r.Ok? ==> (r.value.average_level.None? <==> page.tiers.NoTierStats? || r.value.battles == 0)
  {
    var verdict := ClassifyPlayer(NotificationList(page.paragraphs, page.divs), nickname);
    if verdict.Some? then Err(verdict.value) else ReadStatistics(page)
  }

  /**
   * The derived averages of a successful parse: spotting total and tier
   * total are each divided by the battle count, and without battles the
   * spotting average is 0.0 and the tier average absent.
   */
  lemma ParsedAverages(page: PlayerPage)
    requires ReadStatistics(page).Ok?
    ensures BattlesFrom(page.total) == Ok(ReadStatistics(page).value.battles)
    ensures AverageFacts(ReadStatistics(page).value, DamageAndSpotting(page.listPads).value.1, LevelsFrom(page.tiers).value)
    ensures ReadStatistics(page).value.average_level.Some? ==> page.tiers.DiagPad?
  {
    ReadStatisticsSteps(page);
    AveragesOf(ReadStatistics(page).value, DamageAndSpotting(page.listPads).value.1, LevelsFrom(page.tiers).value);
  }

  /**
   * Without battles the spotting average is 0.0 and the tier average absent;
   * with battles each average times the battle count is its total.
   */
  predicate AverageFacts(p: PlayerStatistics, spotted: real, levels: Option<seq<int>>) {
    && (p.battles == 0 ==> p.average_spotting == 0.0 && p.average_level.None?)
    && (p.battles != 0 ==> p.average_spotting * p.battles as real == spotted)
    && (p.average_level.Some? ==> levels.Some? && p.average_level.value * p.battles as real == LevelSum(levels.value) as real)
  }

  /** The two averages of a record, given what they were computed from. */
  lemma AveragesOf(p: PlayerStatistics, spotted: real, levels: Option<seq<int>>)
    requires p.average_spotting == AverageSpotting(spotted, p.battles)
    requires p.average_level == AverageLevel(levels, p.battles)
    ensures AverageFacts(p, spotted, levels)
  {
  }

  /** The nickname argument only labels the errors: a successful parse does not depend on it. */
  lemma ParseIgnoresNickname(page: PlayerPage, a: Option<string>, b: Option<string>)
    requires ParsePlayerStatistics(page, a).Ok?
    ensures ParsePlayerStatistics(page, b) == ParsePlayerStatistics(page, a)
  {
    var notes := NotificationList(page.paragraphs, page.divs);
    assert ClassifyPlayer(notes, a).None?;
    assert ClassifyPlayer(notes, b).None?;
  }

  /** Pages that agree on their notifications and are classified as errors give the same error. */
  lemma ClassificationDecides(p: PlayerPage, q: PlayerPage, nickname: Option<string>)
    requires NotificationList(p.paragraphs, p.divs) == NotificationList(q.paragraphs, q.divs)
    requires ParsePlayerStatistics(p, nickname).Err?
    requires ClassifyPlayer(NotificationList(p.paragraphs, p.divs), nickname).Some?
    ensures ParsePlayerStatistics(q, nickname) == ParsePlayerStatistics(p, nickname)
  {
  }

  /** The nickname is the line after the first line break of the cleaned name block. */
  lemma NicknameFromSecondLine(name: string, first: string, nick: string, rest: string)
    requires '\n' !in first && '\n' !in nick
    requires CleanHtml(name) == first + "\n" + nick + "\n" + rest
    ensures NicknameFrom(Some(name)) == Ok(nick)
  {
    SplitSecond(first, nick, rest, '\n');
    assert Str(Some(name)) == name;
  }

  /** The word that follows the battle count. */
  const PlayedWord: string := "сыграно"

  /**
   * A battle count followed by "сыграно" as the last word of the cleaned
   * block reads back as that count, and the word alone reads as 0.
   */
  lemma BattlesFromCount(total: string, before: string, space: char, n: nat)
    requires IsSpace(space)
    requires CleanHtml(total) == before + [space] + (ShowNat(n) + PlayedWord)
    ensures BattlesFrom(Some(total)) == Ok(n)
  {
    var digits := ShowNat(n);
    assert SplitWs(CleanHtml(total)) == SplitWs(before) + [digits + PlayedWord] by {
      PlayedWordFacts();
      DigitsUnspaced(n);
      UnseparatedConcat(digits, PlayedWord, Whitespace);
      SplitWsLastWord(before, space, digits + PlayedWord);
    }
    assert Replace(digits + PlayedWord, PlayedWord, "") == digits by {
      PlayedWordFacts();
      assert AllDigits(digits);
      DeleteSuffix(digits, PlayedWord);
    }
    ParseShowInt(n);
  }

  lemma BattlesFromNone(total: string, before: string, space: char)
    requires IsSpace(space)
    requires CleanHtml(total) == before + [space] + PlayedWord
    ensures BattlesFrom(Some(total)) == Ok(0)
  {
    assert SplitWs(CleanHtml(total)) == SplitWs(before) + [PlayedWord] by {
      PlayedWordFacts();
      SplitWsLastWord(before, space, PlayedWord);
    }
    assert Replace(PlayedWord, PlayedWord, "") == "" by {
      PlayedWordFacts();
      DeleteSuffix([], PlayedWord);
    }
  }

  /** The word that follows the spotting total. */
  const SpottedWord: string := "разведданным"

  /**
   * The spotting total is the third word of line 6 without its trailing
   * "разведданным", and 0.0 when nothing precedes the word; the damage text
   * is line 4, stripped, from its fourth character on.
   */
  lemma DamageAndSpottingOf(listPads: seq<string>, lines: seq<string>, d: string)
    requires |listPads| >= 4 && Split(CleanHtml(listPads[3]), '\n') == lines && |lines| >= 7
    requires |SplitWs(lines[6])| >= 3 && SplitWs(lines[6])[2] == d + SpottedWord
    requires SpottedWord[0] !in d
    ensures d == [] ==> DamageAndSpotting(listPads) == Ok((Drop(Strip(lines[4]), 3), 0.0))
    ensures ParseDecimal(d).Some? ==> DamageAndSpotting(listPads) == Ok((Drop(Strip(lines[4]), 3), ParseDecimal(d).value))
    ensures d != [] && ParseDecimal(d).None? ==> DamageAndSpotting(listPads) == Err(Malformed(SpottingValue))
  {
    DeleteSuffix(d, SpottedWord);
  }

  /**
   * The average kills are the last word of the kills block from its fourth
   * character on, and 0.0 when the word has no more than three characters.
   */
  lemma KillsFromWord(divs: seq<string>, before: string, space: char, p: string, d: string)
    requires |divs| >= 3 && IsSpace(space) && |p| == 3 && Unseparated(p + d, Whitespace)
    requires CleanHtml(divs[2]) == before + [space] + (p + d)
    ensures d == [] ==> KillsFrom(Some(divs)) == Ok(0.0)
    ensures ParseDecimal(d).Some? ==> KillsFrom(Some(divs)) == Ok(ParseDecimal(d).value)
    ensures d != [] && ParseDecimal(d).None? ==> KillsFrom(Some(divs)) == Err(Malformed(KillsBlock))
  {
    SplitWsLastWord(before, space, p + d);
    assert Drop(p + d, 3) == d;
  }

  /** The winrate is the cleaned `span.yellow` without its trailing `%`. */
  lemma WinrateFromPercent(yellow: string, d: string)
    requires CleanHtml(yellow) == d + "%"
    ensures ParseDecimal(d).Some? ==> WinrateFrom(Some(yellow)) == Ok(ParseDecimal(d).value)
    ensures ParseDecimal(d).None? ==> WinrateFrom(Some(yellow)) == Err(Malformed(WinrateValue))
  {
    assert DropLast(d + "%") == d;
  }

  /** A damage text `a.ds` converts to `a` plus the digits `ds` as a decimal fraction. */
  lemma DamageFromDecimal(a: nat, ds: string)
    requires AllDigits(ds)
    ensures DamageFrom(ShowNat(a) + "." + ds) == Ok(a as real + DigitsValue(ds) as real / Pow10(|ds|) as real)
  {
    ParseDecimalPoint(a, ds);
  }

  lemma PlayedWordFacts()
    ensures PlayedWord != [] && Unseparated(PlayedWord, Whitespace) && !IsDigit(PlayedWord[0])
  {
  }

  lemma DigitsUnspaced(n: nat)
    ensures Unseparated(ShowNat(n), Whitespace)
  {
    var d := ShowNat(n);
    forall i | 0 <= i < |d| ensures !IsSpace(d[i]) {
      assert IsDigit(d[i]);
    }
  }

  /** Characters a tag or name must avoid to survive the clean-up unchanged. */
  predicate PlainName(s: string) {
    Unseparated(s, Whitespace) && '[' !in s && ']' !in s && '<' !in s
  }

  /**
   * The clan child `<span>[TAG] NAME</span>` gives the tag and the full name;
   * `<span>[] NAME</span>` (an empty tag) gives neither.
   */
  lemma ClanFromSpan(clan: seq<string>, tag: string, fullName: string)
    requires |clan| >= 4 && PlainName(tag) && PlainName(fullName) && fullName != []
    requires clan[3] == "<span>" + ("[" + (tag + "]")) + ([' '] + (fullName + "</span>"))
    ensures ClanFrom(Some(clan)) == if tag == [] then Ok((None, None)) else Ok((Some(tag), Some(fullName)))
  {
    var first, second := "<span>" + ("[" + (tag + "]")), fullName + "</span>";
    assert SplitWs(clan[3]) == [first, second] by {
      SpanPiecesUnspaced(tag, fullName);
      Assoc(first, [' '], second);
      SplitWsLastWord(first, ' ', second);
      SplitWsOneWord(first);
    }
    assert CleanTag(first) == tag by {
      var a := "[" + (tag + "]");
      ReplaceOnlyAtStart("<span>", a, "", '<');
      assert Replace(first, "<span>", "") == a;
      ReplaceOnlyAtStart("[", tag + "]", "", '[');
      assert Replace(a, "[", "") == tag + "]";
      DeleteSuffix(tag, "]");
    }
    assert CleanFullName(second) == fullName by {
      DeleteSuffix(fullName, "</span>");
      ReplaceWithout(fullName, "[", "", '[');
      ReplaceWithout(fullName, "]", "", ']');
    }
  }

  lemma SpanPiecesUnspaced(tag: string, fullName: string)
    requires PlainName(tag) && PlainName(fullName)
    ensures Unseparated("<span>" + ("[" + (tag + "]")), Whitespace)
    ensures Unseparated(fullName + "</span>", Whitespace)
  {
    assert Unseparated("]", Whitespace);
    assert Unseparated("<span>[", Whitespace);
    assert Unseparated("</span>", Whitespace);
    UnseparatedConcat(tag, "]", Whitespace);
    UnseparatedConcat("<span>[", tag + "]", Whitespace);
    assert "<span>" + ("[" + (tag + "]")) == "<span>[" + (tag + "]");
    UnseparatedConcat(fullName, "</span>", Whitespace);
  }

  /** Under the usual page shape every battle counts at least tier 1 and at most the top tier. */
  lemma AverageLevelWithinTiers(levels: seq<int>, battles: int)
    requires forall i :: 0 <= i < |levels| ==> levels[i] >= 0
    requires Sum(levels) == battles && battles > 0
    ensures AverageLevel(Some(levels), battles).Some?
    ensures 1.0 <= AverageLevel(Some(levels), battles).value <= |levels| as real
  {
    LevelSumBounds(levels);
    WeightedPerBattle(LevelSum(levels), battles, |levels|);
    assert AverageLevel(Some(levels), battles) == Some(LevelSum(levels) as real / battles as real);
  }

  /** An integer total between the battle count and n times it gives a per-battle value between 1 and n. */
  lemma WeightedPerBattle(total: int, battles: int, n: int)
    requires battles > 0 && battles <= total <= n * battles
    ensures 1.0 <= total as real / battles as real <= n as real
  {
    assert (n * battles) as real == n as real * battles as real;
    QuotientBetween(total as real, battles as real, 1.0, n as real);
  }

  lemma QuotientBetween(l: real, b: real, lo: real, hi: real)
    requires b > 0.0 && lo * b <= l <= hi * b
    ensures lo <= l / b <= hi
  {
    var q := l / b;
    assert q * b == l;
    assert (q - lo) * b >= 0.0;
    assert (hi - q) * b >= 0.0;
  }

  // ---------------------------------------------------------------------
  // Battalion roster

  /** A battalion page, as the lookups the parser makes see it. */
  datatype RosterPage = RosterPage(
    raw: string,              // the response text itself
    paragraphs: seq<string>,  // every <p>
    divs: seq<string>,        // every <div>
    conts: seq<string>)       // every div.cont

  /** One member row: the `{'id', 'nickname', 'role'}` dictionary. */
  datatype RosterRow = RosterRow(id: int, nickname: string, role: string)

  /** The start of a member line. */
  const MemberLinePrefix: string := "<div><a href=\"/user/stats"

  /** The part of a member line's link that is deleted before the id. */
  const LinkStart: string := "<div><a href=\"/user/stats?"

  /** The member lines of the container, in order. */
  function MemberLines(lines: seq<string>): (r: seq<string>)
    decreases |lines|
  {
    if lines == [] then []
    else
      var init, last := lines[..|lines| - 1], lines[|lines| - 1];
      MemberLines(init) + (if StartsWith(last, MemberLinePrefix) then [last] else [])
  }

  /** The member lines are exactly the lines that start like a member line. */
  lemma {:induction false} MemberLinesMembers(lines: seq<string>, x: string)
    ensures x in MemberLines(lines) <==> x in lines && StartsWith(x, MemberLinePrefix)
    decreases |lines|
  {
    if lines != [] {
      var init, last := lines[..|lines| - 1], lines[|lines| - 1];
      assert lines == init + [last];
      MemberLinesMembers(init, x);
    }
  }

  lemma {:induction false} MemberLinesConcat(xs: seq<string>, ys: seq<string>)
    ensures MemberLines(xs + ys) == MemberLines(xs) + MemberLines(ys)
    decreases |ys|
  {
    if ys == [] {
      assert xs + ys == xs;
    } else {
      var init, last := ys[..|ys| - 1], ys[|ys| - 1];
      assert ys == init + [last];
      Assoc(xs, init, [last]);
      assert (xs + ys)[..|xs + ys| - 1] == xs + init;
      MemberLinesConcat(xs, init);
      var tail := if StartsWith(last, MemberLinePrefix) then [last] else [];
      Assoc(MemberLines(xs), MemberLines(init), tail);
    }
  }

  /** The four substitutions on a member line, then the split on single spaces. */
  function RowTokens(line: string): seq<string> {
    var a := Replace(line, LinkStart, "");
    var b := Replace(a, "\">", " ");
    var c := Replace(b, "</a><br/", " ");
    var d := Replace(c, "data=", " ");
    Split(d, ' ')
  }

  /** The role with its markup removed. */
  function CleanRole(markup: string): string {
    Replace(Replace(markup, "><span>", ""), "</span></div>", "")
  }

  /**
   * One member line: exactly four tokens `['', id, nickname, role markup]`
   * (any other count fails the unpacking), and the id must be an integer.
   */
  function DecomposeRow(line: string): (r: Result<RosterRow>)
    ensures r.Err? <==> |RowTokens(line)| != 4 || ParseInt(RowTokens(line)[1]).None?
    ensures r.Ok? ==> r.value.nickname == RowTokens(line)[2] && r.value.id == ParseInt(RowTokens(line)[1]).value
    ensures r.Err? ==> r.error == Malformed(RosterLine)
  {
    var tokens := RowTokens(line);
    if |tokens| != 4 then Err(Malformed(RosterLine))
    else
      var role := CleanRole(tokens[3]);
      match ParseInt(tokens[1])
      case None => Err(Malformed(RosterLine))
      case Some(id) => Ok(RosterRow(id, tokens[2], role))
  }

  /**
   * The checks before the roster is read: the redirect response first, then
   * the second notification, then the presence of a `div.cont`.
   */
  function RosterCheck(page: RosterPage): (r: Option<Error>)
    ensures page.raw == BattalionMissingPage ==> r == Some(BattalionNotFound)
    ensures page.raw != BattalionMissingPage && |NotificationList(page.paragraphs, page.divs)| < 2 ==>
              r == Some(Malformed(Notifications))
    ensures (page.raw != BattalionMissingPage && |NotificationList(page.paragraphs, page.divs)| >= 2
             && NotificationList(page.paragraphs, page.divs)[1] == NotAuthBattalionText) ==> r == Some(NotAuth)
    ensures r == Some(Malformed(RosterBlock)) <==>
              page.raw != BattalionMissingPage && |NotificationList(page.paragraphs, page.divs)| >= 2
              && NotificationList(page.paragraphs, page.divs)[1] != NotAuthBattalionText && page.conts == []
    ensures r.None? <==> page.raw != BattalionMissingPage && page.conts != []
                         && |NotificationList(page.paragraphs, page.divs)| >= 2
                         && NotificationList(page.paragraphs, page.divs)[1] != NotAuthBattalionText
  {
    var notes := NotificationList(page.paragraphs, page.divs);
    if page.raw == BattalionMissingPage then Some(BattalionNotFound)
    else if |notes| < 2 then Some(Malformed(Notifications))
    else if NotAuthBattalionText == notes[1] then Some(NotAuth)
    else if page.conts == [] then Some(Malformed(RosterBlock))
    else None
  }

  /** The member lines of the first `div.cont`. */
  function RosterLines(page: RosterPage): seq<string>
    requires page.conts != []
  {
    MemberLines(Split(page.conts[0], '\n'))
  }

  /** `parse_battalion_players`, stated as a value: one row per member line, in order. */
  function RosterOf(page: RosterPage): (r: Result<seq<RosterRow>>)
    ensures page.raw == BattalionMissingPage ==> r == Err(BattalionNotFound)
    ensures RosterCheck(page).Some? ==> r == Err(RosterCheck(page).value)
    ensures RosterCheck(page).None? && (forall line :: line in RosterLines(page) ==> DecomposeRow(line).Ok?) ==> r.Ok?
    ensures RosterCheck(page).None? && r.Err? ==>
              exists line :: line in RosterLines(page) && DecomposeRow(line) == Err(r.error)
    ensures r.Ok? ==> RosterCheck(page).None? && |r.value| == |RosterLines(page)|
                      && forall i :: 0 <= i < |r.value| ==> DecomposeRow(RosterLines(page)[i]) == Ok(r.value[i])
  {
    var verdict := RosterCheck(page);
    if verdict.Some? then Err(verdict.value)
    else
      MapAllOk(RosterLines(page), DecomposeRow);
      MapAllErrOf(RosterLines(page), DecomposeRow);
      MapAll(RosterLines(page), DecomposeRow)
  }

  /** `parse_battalion_players`: the checks, then a pass over the lines of the first `div.cont`. */
  method ParseBattalionPlayers(page: RosterPage) returns (r: Result<seq<RosterRow>>)
    ensures r == RosterOf(page)
  {
    var verdict := RosterCheck(page);
    if verdict.Some? {
      return Err(verdict.value);
    }
    var lines := Split(page.conts[0], '\n');
    var players: seq<RosterRow> := [];
    var i := 0;
    while i < |lines|
      invariant 0 <= i <= |lines|
      invariant MapAll(MemberLines(lines[..i]), DecomposeRow) == Ok(players)
    {
      var item := lines[i];
      MemberLinesStep(lines, i, DecomposeRow, players);
      if StartsWith(item, MemberLinePrefix) {
        var player := DecomposeRow(item);
        if player.Err? {
          return Err(player.error);
        }
        players := players + [player.value];
      }
      i := i + 1;
    }
    assert lines[..i] == lines;
    return Ok(players);
  }

  /** One more line adds itself to the member lines exactly when it is one. */
  lemma MemberLinesSnoc(lines: seq<string>, i: nat)
    requires i < |lines|
    ensures MemberLines(lines[..i + 1])
            == MemberLines(lines[..i]) + (if StartsWith(lines[i], MemberLinePrefix) then [lines[i]] else [])
  {
    assert lines[..i + 1][..i] == lines[..i];
  }

  /**
   * One step of a loop over the lines that reads each member line and stops
   * at the first failure: another line changes nothing, a member line that
   * is read extends the rows, and one that fails decides the outcome.
   */
  lemma MemberLinesStep<B>(lines: seq<string>, i: nat, f: string -> Result<B>, done: seq<B>)
    requires i < |lines| && MapAll(MemberLines(lines[..i]), f) == Ok(done)
    ensures !StartsWith(lines[i], MemberLinePrefix) ==> MapAll(MemberLines(lines[..i + 1]), f) == Ok(done)
    ensures StartsWith(lines[i], MemberLinePrefix) && f(lines[i]).Ok? ==>
              MapAll(MemberLines(lines[..i + 1]), f) == Ok(done + [f(lines[i]).value])
    ensures StartsWith(lines[i], MemberLinePrefix) && f(lines[i]).Err? ==>
              MapAll(MemberLines(lines), f) == Err(f(lines[i]).error)
  {
    MemberLinesSnoc(lines, i);
    if StartsWith(lines[i], MemberLinePrefix) {
      if f(lines[i]).Ok? {
        MemberLineRead(lines, i, f);
      } else {
        MemberLineFails(lines, i, f);
      }
    } else {
      assert MemberLines(lines[..i]) + [] == MemberLines(lines[..i]);
    }
  }

  /** A member line that is read extends the rows. */
  lemma MemberLineRead<B>(lines: seq<string>, i: nat, f: string -> Result<B>)
    requires i < |lines| && MapAll(MemberLines(lines[..i]), f).Ok? && f(lines[i]).Ok?
    requires MemberLines(lines[..i + 1]) == MemberLines(lines[..i]) + [lines[i]]
    ensures MapAll(MemberLines(lines[..i + 1]), f) == Ok(MapAll(MemberLines(lines[..i]), f).value + [f(lines[i]).value])
  {
    MapAllSnoc(MemberLines(lines[..i]), lines[i], f);
  }

  /** A member line that fails decides the outcome of the roster. */
  lemma MemberLineFails<B>(lines: seq<string>, i: nat, f: string -> Result<B>)
    requires i < |lines| && MapAll(MemberLines(lines[..i]), f).Ok? && f(lines[i]).Err?
    requires MemberLines(lines[..i + 1]) == MemberLines(lines[..i]) + [lines[i]]
    ensures MapAll(MemberLines(lines), f) == Err(f(lines[i]).error)
  {
    MemberLinesSplit(lines, i + 1);
    MapAllFailsWithin(MemberLines(lines[..i]), lines[i], MemberLines(lines[i + 1..]), f);
  }

  /** The member lines of a text are those of a prefix followed by those of the rest. */
  lemma MemberLinesSplit(lines: seq<string>, k: nat)
    requires k <= |lines|
    ensures MemberLines(lines) == MemberLines(lines[..k]) + MemberLines(lines[k..])
  {
    assert lines[..k] + lines[k..] == lines;
    MemberLinesConcat(lines[..k], lines[k..]);
  }

  // ---------------------------------------------------------------------
  // The member line round trip

  /** Text that the substitutions and the split leave alone. */
  predicate Plain(s: string) {
    Avoids(s, " \"<>=?")
  }

  /** The role as the site marks it up at the end of a member line. */
  function RoleMarkup(role: string): string {
    "><span>" + role + "</span></div>"
  }

  /** The member line the site renders for a player. */
  function RowLine(id: nat, nickname: string, role: string): string {
    LinkStart + ("data=" + (ShowNat(id) + ("\">" + (nickname + ("</a><br/" + RoleMarkup(role))))))
  }

  lemma PlainAvoids(s: string)
    requires Plain(s)
    ensures ' ' !in s && '"' !in s && '<' !in s && '>' !in s && '=' !in s && '?' !in s
  {
    AvoidsChar(s, " \"<>=?", ' ');
    AvoidsChar(s, " \"<>=?", '"');
    AvoidsChar(s, " \"<>=?", '<');
    AvoidsChar(s, " \"<>=?", '>');
    AvoidsChar(s, " \"<>=?", '=');
    AvoidsChar(s, " \"<>=?", '?');
  }

  lemma DigitsPlain(n: nat)
    ensures ' ' !in ShowNat(n) && '"' !in ShowNat(n) && '<' !in ShowNat(n) && '=' !in ShowNat(n)
    ensures '?' !in ShowNat(n)
  {
    var d := ShowNat(n);
    assert AllDigits(d);
  }

  /** The markup of a plain role has none of the characters the substitutions look for first. */
  lemma MarkupAvoids(role: string)
    requires Plain(role)
    ensures ' ' !in RoleMarkup(role) && '"' !in RoleMarkup(role) && '=' !in RoleMarkup(role)
    ensures '?' !in RoleMarkup(role)
  {
    PlainAvoids(role);
  }

  /** The tail of a member line is not touched by the `</a><br/` substitution. */
  lemma RoleMarkupUntouched(role: string)
    requires '<' !in role
    ensures Replace(RoleMarkup(role), "</a><br/", " ") == RoleMarkup(role)
  {
    assert "><span>" == ">" + "<span>";
    NoOccurrenceAround(">", "<span>", role, "</span></div>", "</a><br/", " ", 'b');
  }

  /**
   * A pattern has no occurrence in `lead + open + middle + close` when its
   * first character is missing from `lead`, `middle` and all of `open` but
   * its first character, `open` differs from it at some later position,
   * and `close` lacks one of its characters.
   */
  lemma NoOccurrenceAround(lead: string, open: string, middle: string, close: string,
                           pat: string, rep: string, c: char)
    requires |pat| >= 2 && |open| >= 2 && open[0] == pat[0] && open[1] != pat[1]
    requires pat[0] !in lead && pat[0] !in open[1..] && pat[0] !in middle
    requires c in pat && c !in close
    ensures Replace(lead + open + middle + close, pat, rep) == lead + open + middle + close
  {
    var z := open[1..] + middle;
    assert lead + open + middle + close == lead + ([open[0]] + (z + close));
    ReplaceSkips(lead, [open[0]] + (z + close), pat, rep);
    assert ([open[0]] + (z + close))[1] == open[1];
    ReplaceStep(open[0], z + close, pat, rep);
    ReplaceSkips(z, close, pat, rep);
    ReplaceWithout(close, pat, rep, c);
  }

  /** The role markup loses exactly its two tags. */
  lemma CleanRoleOf(role: string)
    requires '<' !in role && '>' !in role
    ensures CleanRole(RoleMarkup(role)) == role
  {
    CloseTagsKept();
    DeleteTags("><span>", role, "</span></div>");
  }

  /**
   * Deleting an opening and then a closing tag from `open + middle + close`
   * leaves `middle`, when the middle holds neither tag's first character and
   * the closing tag holds no copy of the opening one.
   */
  lemma DeleteTags(open: string, middle: string, close: string)
    requires open != [] && close != [] && open[0] !in middle && close[0] !in middle
    requires Replace(close, open, "") == close
    ensures Replace(Replace(open + middle + close, open, ""), close, "") == middle
  {
    DeleteOpening(open, middle, close);
    DeleteSuffix(middle, close);
  }

  lemma DeleteOpening(open: string, middle: string, close: string)
    requires open != [] && open[0] !in middle && Replace(close, open, "") == close
    ensures Replace(open + middle + close, open, "") == middle + close
  {
    assert open + middle + close == open + (middle + close);
    ReplaceAtStart(open, middle + close, "");
    ReplaceSkips(middle, close, open, "");
  }

  /** The closing tags hold no `><span>`. */
  lemma CloseTagsKept()
    ensures Replace("</span></div>", "><span>", "") == "</span></div>"
  {
    assert "</span></div>" == "</span" + "></" + "div" + ">";
    NoOccurrenceAt("</span", "></", "div", ">", "><span>", "", 's', 2);
  }

  /**
   * `NoOccurrenceAround` for an `open` that first differs from the pattern
   * at position `k`.
   */
  lemma NoOccurrenceAt(lead: string, open: string, middle: string, close: string,
                       pat: string, rep: string, c: char, k: nat)
    requires 1 <= k < |open| && k < |pat| && open[0] == pat[0] && open[k] != pat[k]
    requires pat[0] !in lead && pat[0] !in open[1..] && pat[0] !in middle
    requires c in pat && c !in close
    ensures Replace(lead + open + middle + close, pat, rep) == lead + open + middle + close
  {
    var z := open[1..] + middle;
    assert lead + open + middle + close == lead + ([open[0]] + (z + close));
    ReplaceSkips(lead, [open[0]] + (z + close), pat, rep);
    assert ([open[0]] + (z + close))[k] == open[k];
    ReplaceStep(open[0], z + close, pat, rep);
    ReplaceSkips(z, close, pat, rep);
    ReplaceWithout(close, pat, rep, c);
  }

  /** The line's tokens after the substitutions. */
  lemma RowTokensOf(id: nat, nickname: string, role: string)
    requires Plain(nickname) && Plain(role)
    ensures RowTokens(RowLine(id, nickname, role)) == ["", ShowNat(id), nickname, RoleMarkup(role)]
  {
    PlainAvoids(nickname);
    PlainAvoids(role);
    MarkupAvoids(role);
    DigitsPlain(id);
    var d, m := ShowNat(id), RoleMarkup(role);
    RoleMarkupUntouched(role);
    DropLinkStart(d, nickname + ("</a><br/" + m));
    CloseLinkOpening(d, nickname + ("</a><br/" + m));
    CloseLink(d, nickname, m);
    DropDataKey(d, nickname, m);
    SplitThree(d, nickname, m);
  }

  /** First substitution: the link start goes. */
  lemma DropLinkStart(d: string, tail: string)
    requires '?' !in d && '?' !in tail
    ensures Replace(LinkStart + ("data=" + (d + ("\">" + tail))), LinkStart, "") == "data=" + (d + ("\">" + tail))
  {
    ReplaceOnlyAtStart(LinkStart, "data=" + (d + ("\">" + tail)), "", '?');
  }

  /** Second substitution: the end of the link's opening tag becomes a space. */
  lemma CloseLinkOpening(d: string, tail: string)
    requires '"' !in d && '"' !in tail
    ensures Replace("data=" + (d + ("\">" + tail)), "\">", " ") == ("data=" + d) + (" " + tail)
  {
    Assoc("data=", d, "\">" + tail);
    ReplaceOnly("data=" + d, "\">", tail, " ", '"');
  }

  /** Third substitution: the closing link and the line break become a space. */
  lemma CloseLink(d: string, nickname: string, m: string)
    requires '<' !in d && '<' !in nickname && Replace(m, "</a><br/", " ") == m
    ensures Replace(("data=" + d) + (" " + (nickname + ("</a><br/" + m))), "</a><br/", " ")
            == (("data=" + d) + (" " + nickname)) + (" " + m)
  {
    var front := ("data=" + d) + (" " + nickname);
    Assoc(" ", nickname, "</a><br/" + m);
    Assoc("data=" + d, " " + nickname, "</a><br/" + m);
    ReplaceSkips(front, "</a><br/" + m, "</a><br/", " ");
    ReplaceAtStart("</a><br/", m, " ");
  }

  /** Fourth substitution: the query key becomes a space. */
  lemma DropDataKey(d: string, nickname: string, m: string)
    requires '=' !in d && '=' !in nickname && '=' !in m
    ensures Replace((("data=" + d) + (" " + nickname)) + (" " + m), "data=", " ")
            == [' '] + (d + ([' '] + (nickname + ([' '] + m))))
  {
    var rest := d + ([' '] + (nickname + ([' '] + m)));
    Assoc("data=", d, " " + nickname);
    Assoc("data=", d + (" " + nickname), " " + m);
    Assoc(d, " " + nickname, " " + m);
    Assoc(" ", nickname, " " + m);
    assert (("data=" + d) + (" " + nickname)) + (" " + m) == "data=" + rest;
    ReplaceOnlyAtStart("data=", rest, " ", '=');
  }

  /** Three space-free words after a leading space split into an empty token and the words. */
  lemma SplitThree(x: string, y: string, z: string)
    requires ' ' !in x && ' ' !in y && ' ' !in z
    ensures Split([' '] + (x + ([' '] + (y + ([' '] + z)))), ' ') == ["", x, y, z]
  {
    var sep := Char(' ');
    PiecesAtSeparator(' ', x + ([' '] + (y + ([' '] + z))), sep);
    PiecesCut(x, ' ', y + ([' '] + z), sep);
    PiecesCut(y, ' ', z, sep);
    PiecesUnseparated(x, sep);
    PiecesUnseparated(y, sep);
    PiecesUnseparated(z, sep);
  }

  /** A rendered member line decomposes back into the id, nickname and role it was made of. */
  lemma RowRoundTrip(id: nat, nickname: string, role: string)
    requires Plain(nickname) && Plain(role)
    ensures DecomposeRow(RowLine(id, nickname, role)) == Ok(RosterRow(id, nickname, role))
  {
    RowTokensOf(id, nickname, role);
    ParseShowInt(id);
    PlainAvoids(role);
    CleanRoleOf(role);
  }

  /** A page whose member lines are rendered rows gives exactly those rows, in order. */
  lemma RosterOfRenderedRows(page: RosterPage, rows: seq<RosterRow>)
    requires RosterCheck(page).None?
    requires |RosterLines(page)| == |rows|
    requires forall i :: 0 <= i < |rows| ==> rows[i].id >= 0 && Plain(rows[i].nickname) && Plain(rows[i].role)
    requires forall i :: 0 <= i < |rows| ==> RosterLines(page)[i] == RowLine(rows[i].id, rows[i].nickname, rows[i].role)
    ensures RosterOf(page) == Ok(rows)
  {
    var lines := RosterLines(page);
    forall i | 0 <= i < |rows| ensures DecomposeRow(lines[i]) == Ok(rows[i]) {
      RowRoundTrip(rows[i].id, rows[i].nickname, rows[i].role);
    }
    MapAllOk(lines, DecomposeRow);
    var r := MapAll(lines, DecomposeRow);
    assert r.value == rows;
  }
}
