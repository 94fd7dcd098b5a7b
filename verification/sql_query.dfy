/** `_generate_sql_query`: the parameterised query that fetches the outlets
    matching the detected services and places. */
module SqlQuery {
  import opened Results
  import opened Text
  import opened KnowledgeBase
  import E = Entities

  // Longer texts in this module are written as concatenations of short
  // literals; the pieces join into the one text of the source, and are
  // split only to keep the verifier's work on literals small.

  /** The lines of the `SELECT ... FROM ... LEFT JOIN ...` head every query
      shares. */
  const SelectLine: string := "\n            SELECT " + "DISTINCT \n"
  const ColumnsLine: string :=
    "                o.id, " + "o.name, o.address, " + "o.waze_link, " + "o.latitude, " + "o.longitude,\n"
  const CodesLine: string := "                " + "GROUP_CONCAT(p.code) " + "as perk_codes,\n"
  const NamesLine: string := "                " + "GROUP_CONCAT(p.name) " + "as perk_names\n"
  const FromLine: string := "            FROM " + "outlets o\n"
  const LinkLine: string := "            LEFT JOIN " + "outlet_perks op ON " + "o.id = op.outlet_id\n"
  const PerksLine: string := "            LEFT JOIN " + "perks p ON op.perk_id " + "= p.id\n"

  const BaseQuery: string :=
    SelectLine + ColumnsLine + CodesLine + NamesLine + FromLine + LinkLine + PerksLine + "        "

  /** The grouping every query ends with. */
  const GroupBy: string := " GROUP BY o.id, " + "o.name, o.address, " + "o.waze_link, " + "o.latitude, " + "o.longitude"

  /** The two kinds of test a query makes; each takes one parameter. */
  datatype Test = CodeIs | AddressLike

  /** How a test is written, with its `%s` placeholder. */
  function TestText(t: Test): string {
    match t
    case CodeIs => "p.code = " + Placeholder
    case AddressLike => "o.address LIKE " + Placeholder
  }

  /** The driver's parameter placeholder. */
  const Placeholder: string := "%s"

  /** A disjunction of `count` tests of one kind. */
  datatype Condition = AnyOf(test: Test, count: nat)

  /** `(t OR t OR ... OR t)`. */
  function ConditionText(c: Condition): string {
    "(" + Join(Repeat(TestText(c.test), c.count), " OR ") + ")"
  }

  /** `n` copies of `w`. */
  function Repeat(w: string, n: nat): (r: seq<string>)
    ensures |r| == n && forall i :: 0 <= i < n ==> r[i] == w
  {
    seq(n, _ => w)
  }

  /** The perk codes of the named services, in order; a name missing from
      the table contributes nothing. */
  function PerkParams(names: seq<string>, svcs: seq<Service>): (r: seq<string>)
    decreases |names|
  {
    if names == [] then []
    else
      var codes := match FindService(names[0], svcs)
        case Some(s) => s.perkCodes
        case None => [];
      codes + PerkParams(names[1..], svcs)
  }

  /** The `LIKE` pattern of each place: its alias expansion between `%`s. */
  function LocationParams(locs: seq<string>): (r: seq<string>)
    ensures |r| == |locs|
    ensures forall i :: 0 <= i < |locs| ==> r[i] == "%" + Alias(locs[i]) + "%"
  {
    seq(|locs|, i requires 0 <= i < |locs| => "%" + Alias(locs[i]) + "%")
  }

  /** What the builder returns: the SQL text and its parameters. */
  datatype Query = Query(sql: string, params: seq<string>)

  /** The conditions of the query over the service table `svcs`: one
      disjunction over the perk codes and one over the places, each only
      when it would not be empty. */
  function Conditions(e: E.Entities, svcs: seq<Service>): (cs: seq<Condition>)
    ensures |cs| <= 2
    ensures forall i :: 0 <= i < |cs| ==> cs[i].count > 0
  {
    var codes := if e.services != [] then PerkParams(e.services, svcs) else [];
    (if |codes| > 0 then [AnyOf(CodeIs, |codes|)] else []) +
    (if |e.locations| > 0 then [AnyOf(AddressLike, |e.locations|)] else [])
  }

  /** The text of the conditions joined with `AND`. */
  function WhereText(cs: seq<Condition>): string {
    Join(ConditionTexts(cs), " AND ")
  }

  /** The text of each condition. */
  function ConditionTexts(cs: seq<Condition>): (r: seq<string>)
    ensures |r| == |cs| && forall i :: 0 <= i < |cs| ==> r[i] == ConditionText(cs[i])
  {
    seq(|cs|, i requires 0 <= i < |cs| => ConditionText(cs[i]))
  }

  /** `_generate_sql_query` over the service table `svcs`. The detected
      intent is not consulted. */
  function GenerateWith(e: E.Entities, svcs: seq<Service>): (q: Query)
    ensures |q.params| == |PerkParams(e.services, svcs)| + |e.locations|
    ensures q.params[..|PerkParams(e.services, svcs)|] == PerkParams(e.services, svcs)
    ensures q.params[|PerkParams(e.services, svcs)|..] == LocationParams(e.locations)
    ensures StartsWith(q.sql, BaseQuery) && EndsWith(q.sql, GroupBy)
    ensures Conditions(e, svcs) == [] <==> q.sql == BaseQuery + GroupBy
  {
    var codes := PerkParams(e.services, svcs);
    var places := LocationParams(e.locations);
    var params := codes + places;
    assert params[..|codes|] == codes && params[|codes|..] == places;
    Query(Render(Conditions(e, svcs)), params)
  }

  /** The SQL text for the given conditions: the `WHERE` clause appears
      only when there is a condition. */
  function Render(cs: seq<Condition>): (sql: string)
    ensures StartsWith(sql, BaseQuery) && EndsWith(sql, GroupBy)
    ensures cs == [] <==> sql == BaseQuery + GroupBy
  {
    var sql := if cs != [] then BaseQuery + " WHERE " + WhereText(cs) + GroupBy else BaseQuery + GroupBy;
    assert sql[..|BaseQuery|] == BaseQuery;
    assert sql[|sql| - |GroupBy|..] == GroupBy;
    assert cs != [] ==> |sql| > |BaseQuery + GroupBy|;
    sql
  }

  /** `_generate_sql_query` over the assistant's service table. */
  function Generate(e: E.Entities): (q: Query)
    ensures |q.params| == |PerkParams(e.services, Services)| + |e.locations|
    ensures StartsWith(q.sql, BaseQuery) && EndsWith(q.sql, GroupBy)
  {
    GenerateWith(e, Services)
  }

  /** The number of placeholders the conditions hold. */
  function Placeholders(cs: seq<Condition>): nat
    decreases |cs|
  {
    if cs == [] then 0 else cs[0].count + Placeholders(cs[1..])
  }

  /** Every placeholder gets exactly one parameter. */
  lemma PlaceholdersMatchParams(e: E.Entities, svcs: seq<Service>)
    ensures Placeholders(Conditions(e, svcs)) == |GenerateWith(e, svcs).params|
  {
    var codes := if e.services != [] then PerkParams(e.services, svcs) else [];
    assert e.services == [] ==> PerkParams(e.services, svcs) == [];
    var cs := Conditions(e, svcs);
    if |codes| > 0 && |e.locations| > 0 {
      assert cs[1..] == [AnyOf(AddressLike, |e.locations|)];
      assert Placeholders(cs[1..]) == |e.locations| + Placeholders([]);
    } else if |codes| > 0 || |e.locations| > 0 {
      assert |cs| == 1 && cs[1..] == [];
    }
  }

  /** Every `%` in `s` begins a `%s` placeholder, so the placeholders of `s`
      are counted by its `%` characters. */
  predicate OnlyPlaceholders(s: string) {
    && (forall i, j {:trigger s[i], s[j]} :: 0 <= i < |s| && 0 <= j < |s| && j == i + 1 && s[i] == '%' ==> s[j] == 's')
    && (|s| > 0 ==> s[|s| - 1] != '%')
  }

  /** The number of `%` characters in `s`. */
  function Percents(s: string): nat
    decreases |s|
  {
    if s == [] then 0 else (if s[0] == '%' then 1 else 0) + Percents(s[1..])
  }

  /** The `%` characters of two texts add up in their concatenation. */
  lemma {:induction false} PercentsConcat(a: string, b: string)
    ensures Percents(a + b) == Percents(a) + Percents(b)
    decreases |a|
  {
    if a != [] {
      PercentsConcat(a[1..], b);
      assert (a + b)[1..] == a[1..] + b;
    } else {
      assert a + b == b;
    }
  }

  /** The `%` characters of a list of texts, all told. */
  function PercentsOf(ws: seq<string>): nat
    decreases |ws|
  {
    if ws == [] then 0 else Percents(ws[0]) + PercentsOf(ws[1..])
  }

  /** A text with no `%` holds no placeholder and no stray `%`. */
  lemma {:induction false} PlainText(s: string)
    requires '%' !in s
    ensures OnlyPlaceholders(s) && Percents(s) == 0
    decreases |s|
  {
    if s != [] {
      assert s == [s[0]] + s[1..];
      PlainText(s[1..]);
    }
  }

  /** The placeholder is one `%` followed by its `s`. */
  lemma PlaceholderText()
    ensures OnlyPlaceholders(Placeholder) && Percents(Placeholder) == 1
  {
    assert Placeholder[1..] == "s" && "s"[1..] == [];
  }

  /** Placeholders survive concatenation: a `%` of either part is followed
      by its `s` inside that part. */
  lemma PlaceholdersConcat(a: string, b: string)
    requires OnlyPlaceholders(a) && OnlyPlaceholders(b)
    ensures OnlyPlaceholders(a + b) && Percents(a + b) == Percents(a) + Percents(b)
  {
    PercentsConcat(a, b);
    var ab := a + b;
    forall i, j | 0 <= i < j < |ab| && j == i + 1 && ab[i] == '%'
      ensures ab[j] == 's'
    {
      if j < |a| {
        assert a[i] == '%';
      } else if i >= |a| {
        assert b[i - |a|] == '%' && ab[j] == b[j - |a|];
      }
    }
    if |b| > 0 {
      assert ab[|ab| - 1] == b[|b| - 1];
    }
  }

  /** Joining texts whose every `%` is a placeholder with a separator that
      has no `%` keeps that property and adds up their placeholders. */
  lemma {:induction false} JoinPlaceholders(ws: seq<string>, sep: string)
    requires forall i :: 0 <= i < |ws| ==> OnlyPlaceholders(ws[i])
    requires '%' !in sep
    ensures OnlyPlaceholders(Join(ws, sep)) && Percents(Join(ws, sep)) == PercentsOf(ws)
    decreases |ws|
  {
    if |ws| == 1 {
      assert PercentsOf(ws[1..]) == 0;
    } else if |ws| > 1 {
      JoinPlaceholders(ws[1..], sep);
      PlainText(sep);
      PlaceholdersConcat(ws[0], sep);
      PlaceholdersConcat(ws[0] + sep, Join(ws[1..], sep));
    }
  }

  /** `n` copies of a text with one placeholder hold `n` placeholders. */
  lemma {:induction false} RepeatPercents(w: string, n: nat)
    requires Percents(w) == 1
    ensures PercentsOf(Repeat(w, n)) == n
    decreases n
  {
    if n > 0 {
      RepeatPercents(w, n - 1);
      assert Repeat(w, n)[1..] == Repeat(w, n - 1);
    }
  }

  /** Text with no `%` on either side of `mid` adds no placeholder. */
  lemma Framed(head: string, mid: string, tail: string)
    requires '%' !in head && '%' !in tail && OnlyPlaceholders(mid)
    ensures OnlyPlaceholders(head + mid + tail) && Percents(head + mid + tail) == Percents(mid)
  {
    PlainText(head);
    PlainText(tail);
    PlaceholdersConcat(head, mid);
    PlaceholdersConcat(head + mid, tail);
  }

  /** Text with no `%` followed by the placeholder holds one placeholder. */
  lemma ThenPlaceholder(head: string)
    requires '%' !in head
    ensures OnlyPlaceholders(head + Placeholder) && Percents(head + Placeholder) == 1
  {
    PlaceholderText();
    PlainText(head);
    PlaceholdersConcat(head, Placeholder);
  }

  /** A test holds one placeholder and no other `%`. */
  lemma TestPlaceholder(t: Test)
    ensures OnlyPlaceholders(TestText(t)) && Percents(TestText(t)) == 1
  {
    match t
    case CodeIs => ThenPlaceholder("p.code = ");
    case AddressLike => ThenPlaceholder("o.address LIKE ");
  }

  /** A condition holds as many placeholders as tests. */
  lemma ConditionPlaceholders(c: Condition)
    ensures OnlyPlaceholders(ConditionText(c)) && Percents(ConditionText(c)) == c.count
  {
    var ws := Repeat(TestText(c.test), c.count);
    TestPlaceholder(c.test);
    RepeatPercents(TestText(c.test), c.count);
    JoinPlaceholders(ws, " OR ");
    Framed("(", Join(ws, " OR "), ")");
  }

  /** The conditions' texts hold their placeholders between them. */
  lemma {:induction false} ConditionTextsPlaceholders(cs: seq<Condition>)
    ensures forall i :: 0 <= i < |cs| ==> OnlyPlaceholders(ConditionTexts(cs)[i])
    ensures PercentsOf(ConditionTexts(cs)) == Placeholders(cs)
    decreases |cs|
  {
    forall i | 0 <= i < |cs|
      ensures OnlyPlaceholders(ConditionTexts(cs)[i])
    {
      ConditionPlaceholders(cs[i]);
    }
    if cs != [] {
      ConditionTextsPlaceholders(cs[1..]);
      ConditionPlaceholders(cs[0]);
      assert ConditionTexts(cs)[1..] == ConditionTexts(cs[1..]);
    }
  }

  /** The selected columns hold no `%`. */
  lemma ColumnsPlain()
    ensures '%' !in SelectLine && '%' !in ColumnsLine
  {
    assert '%' !in SelectLine;
  }

  /** The aggregated perk columns hold no `%`. */
  lemma AggregatesPlain()
    ensures '%' !in CodesLine && '%' !in NamesLine
  {
    assert '%' !in CodesLine;
  }

  /** The joined tables hold no `%`. */
  lemma TablesPlain()
    ensures '%' !in FromLine && '%' !in LinkLine && '%' !in PerksLine
  {
    assert '%' !in FromLine;
    assert '%' !in LinkLine;
  }

  /** The fixed parts of the query hold no `%`. */
  lemma FixedTextsPlain()
    ensures '%' !in BaseQuery + " WHERE " && '%' !in BaseQuery && '%' !in GroupBy
  {
    ColumnsPlain();
    AggregatesPlain();
    TablesPlain();
    assert '%' !in GroupBy;
  }

  /** The query text holds exactly as many `%s` placeholders as there are
      parameters, and no other `%`. */
  lemma SqlPlaceholdersMatchParams(e: E.Entities, svcs: seq<Service>)
    ensures OnlyPlaceholders(GenerateWith(e, svcs).sql)
    ensures Percents(GenerateWith(e, svcs).sql) == |GenerateWith(e, svcs).params|
  {
    PlaceholdersMatchParams(e, svcs);
    RenderPlaceholders(Conditions(e, svcs));
  }

  /** The rendered text holds the conditions' placeholders and no other `%`. */
  lemma RenderPlaceholders(cs: seq<Condition>)
    ensures OnlyPlaceholders(Render(cs)) && Percents(Render(cs)) == Placeholders(cs)
  {
    FixedTextsPlain();
    if cs == [] {
      PlainText(BaseQuery);
      PlainText(GroupBy);
      PlaceholdersConcat(BaseQuery, GroupBy);
    } else {
      ConditionTextsPlaceholders(cs);
      JoinPlaceholders(ConditionTexts(cs), " AND ");
      Framed(BaseQuery + " WHERE ", WhereText(cs), GroupBy);
    }
  }

  /** The query has a `WHERE` clause exactly when some perk code or place
      constrains it. */
  lemma WhereIffConstrained(e: E.Entities, svcs: seq<Service>)
    ensures Conditions(e, svcs) != [] <==> (PerkParams(e.services, svcs) != [] || e.locations != [])
  {
    assert e.services == [] ==> PerkParams(e.services, svcs) == [];
  }

  /** When every row lists exactly one perk code, the perk parameters of
      names that are all in the table are their codes, one each. */
  lemma {:induction false} PerkParamsOneEach(names: seq<string>, svcs: seq<Service>)
    requires forall s :: s in svcs ==> |s.perkCodes| == 1
    requires forall i :: 0 <= i < |names| ==> FindService(names[i], svcs).Some?
    ensures |PerkParams(names, svcs)| == |names|
    ensures forall i :: 0 <= i < |names| ==>
      PerkParams(names, svcs)[i] == FindService(names[i], svcs).value.perkCodes[0]
    decreases |names|
  {
    if names != [] {
      PerkParamsOneEach(names[1..], svcs);
      assert forall i :: 1 <= i < |names| ==> names[1..][i - 1] == names[i];
    }
  }

  /** Each row of the service table lists one perk code. */
  lemma OneCodeEach(s: Service)
    requires s in Services
    ensures |s.perkCodes| == 1
  {
  }

  /** A service that is absent from the table adds no parameter. */
  lemma UnknownServiceIgnored(name: string, rest: seq<string>)
    requires FindService(name, Services).None?
    ensures PerkParams([name] + rest, Services) == PerkParams(rest, Services)
  {
    assert ([name] + rest)[1..] == rest;
  }

  /** The services the extractor detects are all in the table, so each
      adds its one perk code to the parameters. */
  lemma DetectedServicesParams(text: string)
    ensures |PerkParams(E.Recognised(text).services, Services)| == |E.Recognised(text).services|
  {
    var names := E.Recognised(text).services;
    forall i | 0 <= i < |names|
      ensures FindService(names[i], Services).Some?
    {
      assert names[i] in names;
    }
    forall s | s in Services
      ensures |s.perkCodes| == 1
    {
      OneCodeEach(s);
    }
    PerkParamsOneEach(names, Services);
  }
}
