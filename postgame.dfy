/** The deterministic part of the bot's post-game report
    (`generate_postgame_report` in lol_coach_bot/discord_bot_cloud.py): the
    participant search, the summary lines, the final items and the
    performance tips. The item-name table and the model's advice are inputs. */
module Postgame {
  import opened Common
  import opened Text

  /** The fields of one entry of `info.participants` that the report reads;
      `items` maps a slot 0..6 to the item id stored under `item<slot>`,
      with a missing key for a missing slot. */
  datatype Participant = Participant(
    puuid: string,
    win: bool,
    championName: string,
    champLevel: int,
    kills: int,
    deaths: int,
    assists: int,
    totalMinionsKilled: int,
    neutralMinionsKilled: int,
    goldEarned: int,
    totalDamageDealtToChampions: int,
    visionScore: int,
    items: map<int, int>)

  datatype MatchInfo = MatchInfo(participants: seq<Participant>, gameDuration: int, gameMode: string)

  const ITEM_SLOTS := 7

  // ---------------------------------------------------------------------
  // Numbers

  /** Python's `round(n / d)` for integers: to the nearest integer, halves
      to the even neighbour. */
  function RoundDiv(n: int, d: int): (r: int)
    requires d > 0
    ensures 2 * (n - d * r) <= d && 2 * (d * r - n) <= d
    ensures 2 * (n - d * r) == d || 2 * (d * r - n) == d ==> r % 2 == 0
  {
    var q := n / d;
    var rem := n % d;
    assert n == d * q + rem && 0 <= rem < d;
    assert d * (q + 1) == d * q + d;
    if 2 * rem < d then q
    else if 2 * rem > d then q + 1
    else if q % 2 == 0 then q
    else q + 1
  }

  /** Three decimal digits with leading zeros. */
  function Digits3(n: nat): (r: string)
    requires n < 1000
    ensures |r| == 3 && All(r, IsDigit)
  {
    ['0' + (n / 100) as char, '0' + (n / 10 % 10) as char, '0' + (n % 10) as char]
  }

  /** `f"{n:,}"`: decimal digits in groups of three separated by commas. */
  function Grouped(n: int): (r: string)
    ensures r != []
  {
    if n < 0 then "-" + GroupedNat(-n) else GroupedNat(n)
  }

  function GroupedNat(n: nat): (r: string)
    ensures r != [] && IsDigit(r[0])
  {
    if n < 1000 then NatToString(n)
    else GroupedNat(n / 1000) + "," + Digits3(n % 1000)
  }

  /** The text with every comma deleted. */
  function WithoutCommas(s: string): (r: string)
    ensures |r| <= |s|
  {
    if s == [] then [] else (if s[0] == ',' then [] else [s[0]]) + WithoutCommas(s[1..])
  }

  lemma {:induction false} WithoutCommasAppend(x: string, y: string)
    ensures WithoutCommas(x + y) == WithoutCommas(x) + WithoutCommas(y)
    decreases |x|
  {
    if x != [] {
      assert (x + y)[0] == x[0];
      assert (x + y)[1..] == x[1..] + y;
      WithoutCommasAppend(x[1..], y);
    } else {
      assert x + y == y;
    }
  }

  lemma {:induction false} WithoutCommasOfDigits(s: string)
    requires All(s, IsDigit)
    ensures WithoutCommas(s) == s
    decreases |s|
  {
    if s != [] {
      assert All(s[1..], IsDigit);
      WithoutCommasOfDigits(s[1..]);
    }
  }

  /** Appending one decimal digit to a positive number. */
  lemma {:induction false} NatToStringStep(a: nat, c: nat)
    requires a >= 1 && c < 10
    ensures NatToString(a * 10 + c) == NatToString(a) + ['0' + c as char]
  {
    var n := a * 10 + c;
    assert n / 10 == a && n % 10 == c;
  }

  /** The decimal text of `a * 1000 + b` is that of `a` followed by the three
      zero-padded digits of `b`. */
  lemma {:induction false} NatToStringThousands(a: nat, b: nat)
    requires a >= 1 && b < 1000
    ensures NatToString(a * 1000 + b) == NatToString(a) + Digits3(b)
  {
    NatToStringStep(a, b / 100);
    NatToStringStep(a * 10 + b / 100, b / 10 % 10);
    assert (a * 10 + b / 100) * 10 + b / 10 % 10 == a * 100 + b / 10;
    NatToStringStep(a * 100 + b / 10, b % 10);
    assert (a * 100 + b / 10) * 10 + b % 10 == a * 1000 + b;
  }

  /** The groups `{:,}` writes for a natural number, most significant first. */
  function Groups(n: nat): (g: seq<string>)
    ensures g != []
  {
    if n < 1000 then [NatToString(n)] else Groups(n / 1000) + [Digits3(n % 1000)]
  }

  /** A number below 1000 has one to three decimal digits. */
  lemma {:induction false} SmallNatLength(n: nat)
    requires n < 1000
    ensures 1 <= |NatToString(n)| <= 3
  {
    if n >= 10 {
      assert NatToString(n) == NatToString(n / 10) + ['0' + (n % 10) as char];
      if n >= 100 {
        assert NatToString(n / 10) == NatToString(n / 10 / 10) + ['0' + (n / 10 % 10) as char];
        assert n / 10 / 10 < 10;
      }
    }
  }

  /** `{:,}` is the comma-join of the groups; the first has one to three
      digits and each later one exactly three. */
  lemma {:induction false} GroupedNatShape(n: nat)
    ensures var g := Groups(n);
      && GroupedNat(n) == Join(g, ",")
      && 1 <= |g[0]| <= 3 && All(g[0], IsDigit)
      && (forall i :: 1 <= i < |g| ==> |g[i]| == 3 && All(g[i], IsDigit))
    decreases n
  {
    if n < 1000 {
      SmallNatLength(n);
    } else {
      var q := n / 1000;
      GroupedNatShape(q);
      JoinAppendLast(Groups(q), Digits3(n % 1000), ",");
      assert Groups(n) == Groups(q) + [Digits3(n % 1000)];
    }
  }

  /** Deleting the commas from the grouped text gives the plain decimal
      text. */
  lemma {:induction false} GroupedNatDigits(n: nat)
    ensures WithoutCommas(GroupedNat(n)) == NatToString(n)
    decreases n
  {
    if n < 1000 {
      WithoutCommasOfDigits(NatToString(n));
    } else {
      var q, b := n / 1000, n % 1000;
      GroupedNatDigits(q);
      var x := GroupedNat(q);
      assert GroupedNat(n) == (x + ",") + Digits3(b);
      WithoutCommasAppend(x + ",", Digits3(b));
      WithoutCommasAppend(x, ",");
      assert WithoutCommas(",") == [];
      WithoutCommasOfDigits(Digits3(b));
      NatToStringThousands(q, b);
      assert n == q * 1000 + b;
    }
  }

  /** Deleting the commas from `{:,}` gives `str(n)`. */
  lemma {:induction false} GroupedDigits(n: int)
    ensures WithoutCommas(Grouped(n)) == IntToString(n)
  {
    if n < 0 {
      GroupedNatDigits(-n);
      WithoutCommasAppend("-", GroupedNat(-n));
    } else {
      GroupedNatDigits(n);
    }
  }

  // ---------------------------------------------------------------------
  // Items

  /** Slot `i` holds an item: the key exists and the id is non-zero. */
  predicate Filled(p: Participant, i: int)
  {
    i in p.items && p.items[i] != 0
  }

  /** `item_data.get(str(id), f"Item ID: {id}")`. */
  function ItemLabel(names: map<string, string>, id: int): (r: string)
    ensures IntToString(id) in names ==> r == names[IntToString(id)]
    ensures IntToString(id) !in names ==> r == "Item ID: " + IntToString(id)
  {
    var key := IntToString(id);
    if key in names then names[key] else "Item ID: " + key
  }

  /** The labels of the filled slots below `n`, in slot order. */
  function ItemNames(p: Participant, names: map<string, string>, n: nat): (r: seq<string>)
    ensures |r| <= n
  {
    if n == 0 then []
    else
      var before := ItemNames(p, names, n - 1);
      if Filled(p, n - 1) then before + [ItemLabel(names, p.items[n - 1])] else before
  }

  /** Every filled slot below `n` contributes its label, nothing else is
      listed, and the list is empty exactly when no slot is filled. */
  lemma {:induction false} ItemNamesContents(p: Participant, names: map<string, string>, n: nat)
    ensures forall i :: 0 <= i < n && Filled(p, i) ==> ItemLabel(names, p.items[i]) in ItemNames(p, names, n)
    ensures forall x :: x in ItemNames(p, names, n) ==>
      exists i :: 0 <= i < n && Filled(p, i) && x == ItemLabel(names, p.items[i])
    ensures ItemNames(p, names, n) == [] <==> forall i :: 0 <= i < n ==> !Filled(p, i)
  {
    if n > 0 {
      ItemNamesContents(p, names, n - 1);
      var before := ItemNames(p, names, n - 1);
      forall x | x in ItemNames(p, names, n)
        ensures exists i :: 0 <= i < n && Filled(p, i) && x == ItemLabel(names, p.items[i])
      {
        if x !in before {
          assert Filled(p, n - 1) && x == ItemLabel(names, p.items[n - 1]);
        }
      }
    }
  }

  /** The list below `m` is a prefix of the list below `n` for `m <= n`. */
  lemma {:induction false} ItemNamesGrow(p: Participant, names: map<string, string>, m: nat, n: nat)
    requires m <= n
    ensures ItemNames(p, names, m) <= ItemNames(p, names, n)
    decreases n - m
  {
    if m < n {
      ItemNamesGrow(p, names, m, n - 1);
    }
  }

  /** Items are listed in slot order: of two filled slots, the lower one's
      label comes first. */
  lemma {:induction false} ItemNamesInOrder(p: Participant, names: map<string, string>, i: nat, j: nat)
    requires i < j < ITEM_SLOTS && Filled(p, i) && Filled(p, j)
    ensures var r := ItemNames(p, names, ITEM_SLOTS);
      exists a, b :: 0 <= a < b < |r| && r[a] == ItemLabel(names, p.items[i]) && r[b] == ItemLabel(names, p.items[j])
  {
    var r := ItemNames(p, names, ITEM_SLOTS);
    ItemNamesGrow(p, names, i + 1, j);
    ItemNamesGrow(p, names, j + 1, ITEM_SLOTS);
    var upToI := ItemNames(p, names, i + 1);
    var upToJ := ItemNames(p, names, j + 1);
    var a := |upToI| - 1;
    var b := |upToJ| - 1;
    assert upToI[a] == ItemLabel(names, p.items[i]);
    assert upToJ[b] == ItemLabel(names, p.items[j]);
    assert r[a] == upToI[a] && r[b] == upToJ[b];
  }

  // ---------------------------------------------------------------------
  // The report

  datatype ReportLine =
    | Outcome(win: bool, gameMode: string, minutes: int)
    | Champion(name: string, level: int, kills: int, deaths: int, assists: int)
    | Farm(minions: int, neutral: int)
    /** `round(goldEarned / 1000, 1)` as Python prints that float. */
    | Gold(shown: string)
    | Damage(amount: int)
    | Vision(score: int)
    | FinalItems(names: seq<string>)
    | DeathTip
    | FarmTip
    | VisionTip
    | Advanced(botName: string, tip: string)
    | AdvancedUnavailable
    | PlayerNotFound
  {
    /** The text appended to the report for this line. */
    function Text(): string
    {
      match this
      case Outcome(win, mode, minutes) =>
        "**Resultado:** " + (if win then "Vitória" else "Derrota") + " em " + mode
        + " (" + IntToString(minutes) + " minutos)"
      case Champion(name, level, k, d, a) =>
        "**Campeão:** " + name + " (" + IntToString(level) + ") - KDA: "
        + IntToString(k) + "/" + IntToString(d) + "/" + IntToString(a)
      case Farm(minions, neutral) =>
        "**Farm (CS):** " + IntToString(minions) + " + " + IntToString(neutral) + " (selva)"
      case Gold(shown) => "**Ouro:** " + shown + "k"
      case Damage(amount) => "**Dano Causado:** " + Grouped(amount)
      case Vision(score) => "**Visão:** " + IntToString(score)
      case FinalItems(names) => "**Itens Finais:** " + Join(names, ", ")
      case DeathTip =>
        "\U{1F4A1} **Dica:** Você teve muitas mortes em relação aos abates e assistências. "
        + "Tente jogar de forma mais segura e evitar lutas desfavoráveis."
      case FarmTip =>
        "\U{1F4A1} **Dica:** Seu farm (CS) foi um pouco baixo. "
        + "Focar em farmar mais pode te dar uma vantagem de ouro significativa."
      case VisionTip =>
        "\U{1F4A1} **Dica:** Sua pontuação de visão foi um pouco baixa. "
        + "Wards são cruciais para controle de mapa e segurança."
      case Advanced(botName, tip) => "\n\U{1F9E0} **Análise Avançada do " + botName + ":**\n" + tip
      case AdvancedUnavailable => "\n\U{26A0}\U{FE0F} Não foi possível gerar uma análise avançada no momento."
      case PlayerNotFound => "Não foi possível encontrar os dados do jogador nesta partida."
    }
  }

  /** The performance tips: the death tip, else the farm tip, and then,
      decided separately, the vision tip (`vision < minutes * 1.5` stated
      over the integers). */
  function Tips(p: Participant, minutes: int): seq<ReportLine>
  {
    (if p.deaths > p.kills + p.assists then [DeathTip]
     else if p.totalMinionsKilled < minutes * 5 then [FarmTip]
     else [])
    + (if 2 * p.visionScore < 3 * minutes then [VisionTip] else [])
  }

  /** The death tip wins over the farm tip and the two never appear
      together; the vision tip depends on the vision score alone. */
  lemma {:induction false} TipRules(p: Participant, minutes: int)
    ensures DeathTip in Tips(p, minutes) <==> p.deaths > p.kills + p.assists
    ensures FarmTip in Tips(p, minutes) <==>
      p.deaths <= p.kills + p.assists && p.totalMinionsKilled < minutes * 5
    ensures !(DeathTip in Tips(p, minutes) && FarmTip in Tips(p, minutes))
    ensures VisionTip in Tips(p, minutes) <==> 2 * p.visionScore < 3 * minutes
    ensures |Tips(p, minutes)| <= 2
  {
  }

  /** The report's lines; a player absent from the match gets the fixed
      message alone. `llmTip` is the model's advice, None when it failed. */
  function ReportLines(m: MatchInfo, puuid: string, botName: string, names: map<string, string>,
                       goldShown: string, llmTip: Option<string>): seq<ReportLine>
  {
    match FindFirst(m.participants, (x: Participant) => x.puuid == puuid)
    case None => [PlayerNotFound]
    case Some(k) =>
      var p := m.participants[k];
      var minutes := RoundDiv(m.gameDuration, 60);
      var items := ItemNames(p, names, ITEM_SLOTS);
      Summary(p, m.gameMode, minutes, goldShown)
      + (if items != [] then [FinalItems(items)] else [])
      + Tips(p, minutes)
      + [Closing(botName, llmTip)]
  }

  /** The six summary lines, in order. */
  function Summary(p: Participant, gameMode: string, minutes: int, goldShown: string): seq<ReportLine>
  {
    [Outcome(p.win, gameMode, minutes),
     Champion(p.championName, p.champLevel, p.kills, p.deaths, p.assists),
     Farm(p.totalMinionsKilled, p.neutralMinionsKilled),
     Gold(goldShown),
     Damage(p.totalDamageDealtToChampions),
     Vision(p.visionScore)]
  }

  /** The last line: the model's advice, or the apology when it failed. */
  function Closing(botName: string, llmTip: Option<string>): ReportLine
  {
    if llmTip.Some? then Advanced(botName, llmTip.value) else AdvancedUnavailable
  }

  /** `"\n".join(report)`. */
  function Render(lines: seq<ReportLine>): (r: string)
    ensures lines != [] ==> lines[0].Text() <= r
  {
    Join(seq(|lines|, i requires 0 <= i < |lines| => lines[i].Text()), "\n")
  }

  /** The lines for the first participant with the player's puuid. */
  lemma {:induction false} ReportLinesFor(m: MatchInfo, puuid: string, botName: string, names: map<string, string>,
                       goldShown: string, llmTip: Option<string>, k: nat)
    requires k < |m.participants| && m.participants[k].puuid == puuid
    requires forall j :: 0 <= j < k ==> m.participants[j].puuid != puuid
    ensures var p := m.participants[k];
      var minutes := RoundDiv(m.gameDuration, 60);
      var items := ItemNames(p, names, ITEM_SLOTS);
      ReportLines(m, puuid, botName, names, goldShown, llmTip) ==
        Summary(p, m.gameMode, minutes, goldShown) + (if items != [] then [FinalItems(items)] else [])
        + Tips(p, minutes) + [Closing(botName, llmTip)]
  {
    assert FindFirst(m.participants, (x: Participant) => x.puuid == puuid) == Some(k);
  }

  /** The report is about the first participant with the player's puuid:
      it opens with that participant's result and champion, and ends with
      the advice, or with the apology when there is none. */
  lemma {:induction false} ReportUsesFirstMatch(m: MatchInfo, puuid: string, botName: string, names: map<string, string>,
                             goldShown: string, llmTip: Option<string>, k: nat)
    requires k < |m.participants| && m.participants[k].puuid == puuid
    requires forall j :: 0 <= j < k ==> m.participants[j].puuid != puuid
    ensures var lines := ReportLines(m, puuid, botName, names, goldShown, llmTip);
      var p := m.participants[k];
      var minutes := RoundDiv(m.gameDuration, 60);
      && lines[0] == Outcome(p.win, m.gameMode, minutes)
      && lines[1] == Champion(p.championName, p.champLevel, p.kills, p.deaths, p.assists)
      && lines[|lines| - 1] == (if llmTip.Some? then Advanced(botName, llmTip.value) else AdvancedUnavailable)
      && PlayerNotFound !in lines
  {
    ReportLinesFor(m, puuid, botName, names, goldShown, llmTip, k);
  }

  /** The items line is there exactly when some slot is filled, and every
      tip the rules select is in the report. */
  lemma {:induction false} ReportListsItemsAndTips(m: MatchInfo, puuid: string, botName: string, names: map<string, string>,
                                goldShown: string, llmTip: Option<string>, k: nat)
    requires k < |m.participants| && m.participants[k].puuid == puuid
    requires forall j :: 0 <= j < k ==> m.participants[j].puuid != puuid
    ensures var lines := ReportLines(m, puuid, botName, names, goldShown, llmTip);
      var p := m.participants[k];
      && (FinalItems(ItemNames(p, names, ITEM_SLOTS)) in lines <==> exists i :: 0 <= i < ITEM_SLOTS && Filled(p, i))
      && (forall t :: t in Tips(p, RoundDiv(m.gameDuration, 60)) ==> t in lines)
  {
    ReportLinesFor(m, puuid, botName, names, goldShown, llmTip, k);
    var p := m.participants[k];
    var minutes := RoundDiv(m.gameDuration, 60);
    var items := ItemNames(p, names, ITEM_SLOTS);
    ItemNamesContents(p, names, ITEM_SLOTS);
    if items == [] {
      assert FinalItems(items) !in Summary(p, m.gameMode, minutes, goldShown);
      assert FinalItems(items) !in Tips(p, minutes);
    }
  }

  /** A player not in the match gets only the fixed message. */
  lemma {:induction false} ReportWithoutPlayer(m: MatchInfo, puuid: string, botName: string, names: map<string, string>,
                            goldShown: string, llmTip: Option<string>)
    requires forall j :: 0 <= j < |m.participants| ==> m.participants[j].puuid != puuid
    ensures ReportLines(m, puuid, botName, names, goldShown, llmTip) == [PlayerNotFound]
    ensures Render(ReportLines(m, puuid, botName, names, goldShown, llmTip)) == PlayerNotFound.Text()
  {
    assert FindFirst(m.participants, (x: Participant) => x.puuid == puuid).None?;
  }

  /** The `for ... break` search for the player's participant. */
  method FindParticipant(ps: seq<Participant>, puuid: string) returns (found: Option<nat>)
    ensures found == FindFirst(ps, (x: Participant) => x.puuid == puuid)
  {
    found := None;
    var i := 0;
    while i < |ps|
      invariant 0 <= i <= |ps| && found == None
      invariant forall j :: 0 <= j < i ==> ps[j].puuid != puuid
    {
      if ps[i].puuid == puuid {
        found := Some(i);
        break;
      }
      i := i + 1;
    }
  }

  /** The loop over item slots 0..6. */
  method ListItems(p: Participant, names: map<string, string>) returns (items: seq<string>)
    ensures items == ItemNames(p, names, ITEM_SLOTS)
  {
    items := [];
    for slot := 0 to ITEM_SLOTS
      invariant items == ItemNames(p, names, slot)
    {
      if slot in p.items && p.items[slot] != 0 {
        items := items + [ItemLabel(names, p.items[slot])];
      }
    }
  }

  /** `generate_postgame_report` without the file load and the model call. */
  method GeneratePostgameReport(m: MatchInfo, puuid: string, botName: string, names: map<string, string>,
                                goldShown: string, llmTip: Option<string>) returns (report: string)
    ensures report == Render(ReportLines(m, puuid, botName, names, goldShown, llmTip))
  {
    var lines := CollectReportLines(m, puuid, botName, names, goldShown, llmTip);
    report := Render(lines);
  }

  /** The participant search, then the report's lines appended one by one. */
  method CollectReportLines(m: MatchInfo, puuid: string, botName: string, names: map<string, string>,
                            goldShown: string, llmTip: Option<string>) returns (lines: seq<ReportLine>)
    ensures lines == ReportLines(m, puuid, botName, names, goldShown, llmTip)
  {
    var found := FindParticipant(m.participants, puuid);
    if found.None? {
      lines := [PlayerNotFound];
    } else {
      var p := m.participants[found.value];
      var minutes := RoundDiv(m.gameDuration, 60);
      lines := [];
      lines := lines + [Outcome(p.win, m.gameMode, minutes)];
      lines := lines + [Champion(p.championName, p.champLevel, p.kills, p.deaths, p.assists)];
      lines := lines + [Farm(p.totalMinionsKilled, p.neutralMinionsKilled)];
      lines := lines + [Gold(goldShown)];
      lines := lines + [Damage(p.totalDamageDealtToChampions)];
      lines := lines + [Vision(p.visionScore)];
      assert lines == Summary(p, m.gameMode, minutes, goldShown);
      var items := ListItems(p, names);
      if items != [] {
        lines := lines + [FinalItems(items)];
      }
      var tips := TipLines(p, minutes);
      lines := lines + tips;
      if llmTip.Some? {
        lines := lines + [Advanced(botName, llmTip.value)];
      } else {
        lines := lines + [AdvancedUnavailable];
      }
    }
  }

  /** The coaching tips, appended in the order the source checks them. */
  method TipLines(p: Participant, minutes: int) returns (tips: seq<ReportLine>)
    ensures tips == Tips(p, minutes)
  {
    tips := [];
    if p.deaths > p.kills + p.assists {
      tips := tips + [DeathTip];
    } else if p.totalMinionsKilled < minutes * 5 {
      tips := tips + [FarmTip];
    }
    if 2 * p.visionScore < 3 * minutes {
      tips := tips + [VisionTip];
    }
  }
}
