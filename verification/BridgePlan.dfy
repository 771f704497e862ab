/** Which transports are launched for the bridge lines at hand, and the waves the lines are tried in. */
module BridgePlan {
  import opened Wrappers
  import opened Bridges

  datatype Transport = Transport(protocols: seq<string>, path: string)

  datatype Plan = Plan(lines: seq<string>, transports: seq<Transport>, missing: seq<string>, source: string)

  // ---------------------------------------------------------------- who speaks what

  function Protocols(t: Transport): set<string> {
    set p | p in t.protocols
  }

  function Spoken(ts: seq<Transport>): set<string> {
    if ts == [] then {} else Spoken(Init(ts)) + Protocols(Last(ts))
  }

  /** How many times `p` is listed among all the transports. */
  function TimesIn(ts: seq<Transport>, p: string): nat {
    if ts == [] then 0 else TimesIn(Init(ts), p) + Times(Last(ts).protocols, p)
  }

  /** The program of the first transport that lists `p`. */
  function Speaker(ts: seq<Transport>, p: string): Option<string> {
    if ts == [] then None
    else
      var earlier := Speaker(Init(ts), p);
      if earlier.Some? then earlier else if p in Last(ts).protocols then Some(Last(ts).path) else None
  }

  lemma {:induction false} SpokenIff(ts: seq<Transport>, p: string)
    ensures p in Spoken(ts) <==> TimesIn(ts, p) > 0
    ensures p in Spoken(ts) <==> Speaker(ts, p).Some?
  {
    if ts != [] {
      SpokenIff(Init(ts), p);
    }
  }

  // ---------------------------------------------------------------- claiming

  /** The protocols not claimed yet, each once. */
  function Fresh(ps: seq<string>, claimed: set<string>): seq<string> {
    if ps == [] then []
    else if Last(ps) in claimed || Last(ps) in Init(ps) then Fresh(Init(ps), claimed)
    else Fresh(Init(ps), claimed) + [Last(ps)]
  }

  /** The given transports, then of every discovered one the protocols it is the first to offer. */
  function Claim(extra: seq<Transport>, found: seq<Transport>): seq<Transport> {
    if found == [] then extra
    else
      var before := Claim(extra, Init(found));
      var mine := Fresh(Last(found).protocols, Spoken(before));
      if mine == [] then before else before + [Transport(mine, Last(found).path)]
  }

  lemma {:induction false} FreshTimes(ps: seq<string>, claimed: set<string>, p: string)
    ensures Times(Fresh(ps, claimed), p) == if p in ps && p !in claimed then 1 else 0
  {
    if ps != [] {
      FreshTimes(Init(ps), claimed, p);
      InitLast(Fresh(Init(ps), claimed), Last(ps));
      assert ps == Init(ps) + [Last(ps)];
    }
  }

  /** One more discovered transport. */
  lemma ClaimStep(before: seq<Transport>, one: Transport, p: string)
    ensures var mine := Fresh(one.protocols, Spoken(before));
            var after := if mine == [] then before else before + [Transport(mine, one.path)];
            && Spoken(after) == Spoken(before) + Protocols(one)
            && TimesIn(after, p) == (if p in Spoken(before) || p !in one.protocols then TimesIn(before, p) else 1)
            && Speaker(after, p) == Speaker(before + [one], p)
  {
    var mine := Fresh(one.protocols, Spoken(before));
    forall q ensures q in mine <==> q in one.protocols && q !in Spoken(before) {
      FreshTimes(one.protocols, Spoken(before), q);
    }
    FreshTimes(one.protocols, Spoken(before), p);
    SpokenIff(before, p);
    InitLast(before, Transport(mine, one.path));
    InitLast(before, one);
  }

  lemma {:induction false} ClaimSpoken(extra: seq<Transport>, found: seq<Transport>)
    ensures Spoken(Claim(extra, found)) == Spoken(extra) + Spoken(found)
  {
    hide Fresh;
    if found != [] {
      ClaimSpoken(extra, Init(found));
      ClaimStep(Claim(extra, Init(found)), Last(found), "");
    }
  }

  /** Every claimed protocol is listed once, but for repeats among the transports given by hand. */
  lemma {:induction false} ClaimTimes(extra: seq<Transport>, found: seq<Transport>, p: string)
    ensures TimesIn(Claim(extra, found), p) ==
              if p in Spoken(extra) then TimesIn(extra, p) else if p in Spoken(found) then 1 else 0
  {
    hide Fresh;
    if found == [] {
      SpokenIff(extra, p);
    } else {
      ClaimSpoken(extra, Init(found));
      ClaimTimes(extra, Init(found), p);
      ClaimStep(Claim(extra, Init(found)), Last(found), p);
    }
  }

  /** A protocol is spoken by the first that offers it, those given by hand before those discovered. */
  lemma {:induction false} ClaimSpeaker(extra: seq<Transport>, found: seq<Transport>, p: string)
    ensures Speaker(Claim(extra, found), p) == Speaker(extra + found, p)
  {
    hide Fresh;
    if found == [] {
      assert extra + found == extra;
    } else {
      ClaimSpeaker(extra, Init(found), p);
      ClaimStep(Claim(extra, Init(found)), Last(found), p);
      assert Init(extra + found) == extra + Init(found);
      InitLast(Claim(extra, Init(found)), Last(found));
    }
  }

  // ---------------------------------------------------------------- pruning

  function Only(ps: seq<string>, used: set<string>): seq<string> {
    if ps == [] then []
    else if Last(ps) in used then Only(Init(ps), used) + [Last(ps)]
    else Only(Init(ps), used)
  }

  /** The transports that speak something used, and of each only what is used. */
  function Restrict(ts: seq<Transport>, used: set<string>): seq<Transport> {
    if ts == [] then []
    else
      var mine := Only(Last(ts).protocols, used);
      if mine == [] then Restrict(Init(ts), used) else Restrict(Init(ts), used) + [Transport(mine, Last(ts).path)]
  }

  lemma {:induction false} OnlyTimes(ps: seq<string>, used: set<string>, p: string)
    ensures Times(Only(ps, used), p) == if p in used then Times(ps, p) else 0
  {
    if ps != [] {
      OnlyTimes(Init(ps), used, p);
      InitLast(Only(Init(ps), used), Last(ps));
    }
  }

  lemma OnlyEmptyIff(ps: seq<string>, used: set<string>)
    ensures (forall i :: 0 <= i < |ps| ==> ps[i] !in used) <==> Only(ps, used) == []
  {
    forall p ensures p in Only(ps, used) <==> p in used && p in ps {
      OnlyTimes(ps, used, p);
    }
    if Only(ps, used) != [] {
      assert Only(ps, used)[0] in Only(ps, used);
    }
    if i :| 0 <= i < |ps| && ps[i] in used {
      assert ps[i] in Only(ps, used);
    }
  }

  lemma {:induction false} RestrictSpeaks(ts: seq<Transport>, used: set<string>, p: string)
    ensures TimesIn(Restrict(ts, used), p) == if p in used then TimesIn(ts, p) else 0
    ensures Speaker(Restrict(ts, used), p) == if p in used then Speaker(ts, p) else None
  {
    if ts != [] {
      RestrictSpeaks(Init(ts), used, p);
      var last := Last(ts);
      OnlyTimes(last.protocols, used, p);
      InitLast(Restrict(Init(ts), used), Transport(Only(last.protocols, used), last.path));
    }
  }

  /** No transport is left without something to speak, or with something nobody uses. */
  lemma {:induction false} RestrictIsTight(ts: seq<Transport>, used: set<string>, i: nat)
    requires i < |Restrict(ts, used)|
    ensures Restrict(ts, used)[i].protocols != []
    ensures forall p :: p in Restrict(ts, used)[i].protocols ==> p in used
  {
    if i < |Restrict(Init(ts), used)| {
      RestrictIsTight(Init(ts), used, i);
    } else {
      forall p ensures p in Only(Last(ts).protocols, used) ==> p in used {
        OnlyTimes(Last(ts).protocols, used, p);
      }
    }
  }

  method Retain(ts: seq<Transport>, used: set<string>) returns (r: seq<Transport>)
    ensures r == Restrict(ts, used)
  {
    var held: seq<Transport> := [];
    ghost var want: seq<Transport> := [];
    r := [];
    for i := 0 to |ts|
      invariant |held| == |want| && want == Restrict(ts[..i], used)
      invariant forall j :: 0 <= j < |held| ==> want[j] == Transport(Only(held[j].protocols, used), held[j].path)
    {
      PrefixStep(ts, i);
      OnlyEmptyIff(ts[i].protocols, used);
      if exists p :: p in ts[i].protocols && p in used {
        held, want := held + [ts[i]], want + [Transport(Only(ts[i].protocols, used), ts[i].path)];
      }
    }
    assert ts[..|ts|] == ts;
    for i := 0 to |held|
      invariant r == want[..i]
    {
      var mine := [];
      for j := 0 to |held[i].protocols|
        invariant mine == Only(held[i].protocols[..j], used)
      {
        PrefixStep(held[i].protocols, j);
        if held[i].protocols[j] in used {
          mine := mine + [held[i].protocols[j]];
        }
      }
      assert held[i].protocols[..|held[i].protocols|] == held[i].protocols;
      r := r + [Transport(mine, held[i].path)];
    }
  }

  // ---------------------------------------------------------------- names in order

  /** Strings in order of their code points. */
  predicate Alphabetic(a: string, b: string) {
    if b == [] then false
    else if a == [] then true
    else if a[0] != b[0] then a[0] < b[0]
    else Alphabetic(a[1..], b[1..])
  }

  function Known(name: string, from: nat): (k: nat)
    requires from <= |PREFERENCE|
    ensures k <= |PREFERENCE|
    decreases |PREFERENCE| - from
  {
    if from == |PREFERENCE| || PREFERENCE[from] == name then from else Known(name, from + 1)
  }

  /** The remembered transport goes first, then the preferred ones, then the rest by name. */
  predicate Earlier(a: string, b: string, first: Option<string>) {
    if (first == Some(a)) != (first == Some(b)) then first == Some(a)
    else if Known(a, 0) != Known(b, 0) then Known(a, 0) < Known(b, 0)
    else Alphabetic(a, b)
  }

  lemma {:induction false} AlphabeticOrder(a: string, b: string, c: string)
    ensures !Alphabetic(a, a)
    ensures a == b || Alphabetic(a, b) || Alphabetic(b, a)
    ensures Alphabetic(a, b) && Alphabetic(b, c) ==> Alphabetic(a, c)
  {
    if a != [] {
      var u, v := if b == [] then [] else b[1..], if c == [] then [] else c[1..];
      AlphabeticOrder(a[1..], u, v);
      if b != [] && a[0] == b[0] && a[1..] == u {
        assert a == [a[0]] + a[1..] && b == [b[0]] + b[1..];
      }
    }
  }

  lemma EarlierOrder(a: string, b: string, c: string, first: Option<string>)
    ensures !Earlier(a, a, first)
    ensures a == b || Earlier(a, b, first) || Earlier(b, a, first)
    ensures Earlier(a, b, first) && Earlier(b, c, first) ==> Earlier(a, c, first)
  {
    AlphabeticOrder(a, b, c);
  }

  /** How a list of names is ordered: by name alone, or as the waves take their turns. */
  datatype Order = ByName | ByTurn(first: Option<string>)

  predicate Before(a: string, b: string, order: Order) {
    match order
    case ByName => Alphabetic(a, b)
    case ByTurn(first) => Earlier(a, b, first)
  }

  lemma StrictOrder(a: string, b: string, c: string, order: Order)
    ensures !Before(a, a, order)
    ensures a == b || Before(a, b, order) || Before(b, a, order)
    ensures Before(a, b, order) && Before(b, c, order) ==> Before(a, c, order)
  {
    AlphabeticOrder(a, b, c);
    if order.ByTurn? {
      EarlierOrder(a, b, c, order.first);
    }
  }

  ghost predicate InOrder(names: seq<string>, order: Order) {
    forall i, j :: 0 <= i < j < |names| ==> Before(names[i], names[j], order)
  }

  function Insert(name: string, names: seq<string>, order: Order): seq<string> {
    if names == [] || Before(name, names[0], order) then [name] + names
    else [names[0]] + Insert(name, names[1..], order)
  }

  lemma {:induction false} InsertKeepsOrder(name: string, names: seq<string>, order: Order)
    requires InOrder(names, order) && name !in names
    ensures InOrder(Insert(name, names, order), order)
    ensures forall x :: x in Insert(name, names, order) <==> x == name || x in names
  {
    hide Before;
    if names != [] {
      var rest := names[1..];
      assert names == [names[0]] + rest;
      StrictOrder(name, names[0], name, order);
      if Before(name, names[0], order) {
        forall i | 0 <= i < |names| ensures Before(name, names[i], order) {
          StrictOrder(name, names[0], names[i], order);
        }
      } else {
        InsertKeepsOrder(name, rest, order);
        var tail := Insert(name, rest, order);
        forall i | 0 <= i < |tail| ensures Before(names[0], tail[i], order) {
          assert tail[i] in tail;
        }
      }
    }
  }

  method SortedNames(kinds: set<string>, order: Order) returns (names: seq<string>)
    ensures InOrder(names, order) && forall x :: x in names <==> x in kinds
  {
    hide *;
    var rest := kinds;
    names := [];
    assert InOrder(names, order) by { NothingInOrder(order); }
    while rest != {}
      invariant InOrder(names, order) && rest <= kinds
      invariant forall x :: x in names <==> x in kinds && x !in rest
      decreases |rest|
    {
      var name :| name in rest;
      InsertKeepsOrder(name, names, order);
      names, rest := Insert(name, names, order), rest - {name};
    }
  }

  lemma NothingInOrder(order: Order)
    ensures InOrder([], order)
  {
  }

  lemma HasMember(names: seq<string>)
    ensures names != [] ==> exists x :: x in names
  {
    if names != [] {
      assert names[0] in names;
    }
  }

  lemma HeadOnce(a: seq<string>, order: Order)
    requires InOrder(a, order) && a != []
    ensures a[0] !in a[1..] && forall x :: x in a <==> x == a[0] || x in a[1..]
  {
    hide Before;
    StrictOrder(a[0], a[0], a[0], order);
    assert a == [a[0]] + a[1..];
    forall i | 0 <= i < |a[1..]| ensures a[1..][i] != a[0] {
      assert Before(a[0], a[i + 1], order);
    }
  }

  /** Only one list of the same names is in order. */
  lemma {:induction false} OrderIsUnique(a: seq<string>, b: seq<string>, order: Order)
    requires InOrder(a, order) && InOrder(b, order) && forall x :: x in a <==> x in b
    ensures a == b
  {
    hide Before;
    if a == [] {
      HasMember(b);
    } else {
      assert a[0] in b && b != [] && b[0] in a;
      StrictOrder(a[0], b[0], a[0], order);
      assert a[0] == b[0];
      HeadOnce(a, order);
      HeadOnce(b, order);
      forall x ensures x in a[1..] <==> x in b[1..] {
        assert x in a <==> x in b;
      }
      OrderIsUnique(a[1..], b[1..], order);
      assert a == [a[0]] + a[1..] && b == [b[0]] + b[1..];
    }
  }

  // ---------------------------------------------------------------- the plan

  predicate Speakable(line: string, spoken: set<string>) {
    TransportOf(line).Some? ==> TransportOf(line).value in spoken
  }

  function SpeakableLines(lines: seq<string>, spoken: set<string>): seq<string> {
    if lines == [] then []
    else if Speakable(Last(lines), spoken) then SpeakableLines(Init(lines), spoken) + [Last(lines)]
    else SpeakableLines(Init(lines), spoken)
  }

  /** The transports the lines name. */
  function Named(lines: seq<string>): set<string> {
    if lines == [] then {}
    else
      var transport := TransportOf(Last(lines));
      if transport.Some? then Named(Init(lines)) + {transport.value} else Named(Init(lines))
  }

  /** The transports the lines name that nothing speaks, each once and by name. */
  function Missing(lines: seq<string>, spoken: set<string>): seq<string> {
    if lines == [] then []
    else
      var before, transport := Missing(Init(lines), spoken), TransportOf(Last(lines));
      if transport.Some? && transport.value !in spoken then Added(transport.value, before) else before
  }

  /** A name joins a sorted list once. */
  function Added(name: string, names: seq<string>): seq<string> {
    if name in names then names else Insert(name, names, ByName)
  }

  lemma {:induction false} MissingExact(lines: seq<string>, spoken: set<string>)
    ensures InOrder(Missing(lines, spoken), ByName)
    ensures forall p :: p in Missing(lines, spoken) <==> p in Named(lines) && p !in spoken
  {
    hide TransportOf, Before, Insert;
    if lines != [] {
      MissingExact(Init(lines), spoken);
      var before, transport := Missing(Init(lines), spoken), TransportOf(Last(lines));
      if transport.Some? && transport.value !in spoken && transport.value !in before {
        InsertKeepsOrder(transport.value, before, ByName);
      }
    }
  }

  function Planned(lines: seq<string>, source: string, extra: seq<Transport>, found: seq<Transport>): Plan {
    var spoken := Spoken(extra) + Spoken(found);
    var kept := SpeakableLines(lines, spoken);
    Plan(kept, Restrict(Claim(extra, found), Named(kept)), Missing(lines, spoken), source)
  }

  method PlanWith(lines: seq<string>, source: string, extra: seq<Transport>, found: seq<Transport>) returns (plan: Plan)
    ensures plan == Planned(lines, source, extra, found)
  {
    hide TransportOf, Restrict, Added;
    var transports, claimed := extra, Spoken(extra);
    assert found[..0] == [];
    for i := 0 to |found|
      invariant transports == Claim(extra, found[..i]) && claimed == Spoken(transports)
    {
      PrefixStep(found, i);
      ClaimStep(transports, found[i], "");
      var mine, now := FreshOnes(found[i].protocols, claimed);
      claimed := now;
      if mine != [] {
        transports := transports + [Transport(mine, found[i].path)];
      }
    }
    assert found[..|found|] == found;
    ClaimSpoken(extra, found);
    var kept, missing := [], [];
    for i := 0 to |lines|
      invariant kept == SpeakableLines(lines[..i], claimed) && missing == Missing(lines[..i], claimed)
    {
      PrefixStep(lines, i);
      match TransportOf(lines[i])
      case None => kept := kept + [lines[i]];
      case Some(protocol) =>
        if protocol in claimed {
          kept := kept + [lines[i]];
        } else {
          missing := Added(protocol, missing);
        }
    }
    assert lines[..|lines|] == lines;
    var used := Named(kept);
    transports := Retain(transports, used);
    plan := Plan(kept, transports, missing, source);
  }

  /** The filter that claims as it goes. */
  method FreshOnes(ps: seq<string>, claimed: set<string>) returns (mine: seq<string>, now: set<string>)
    ensures mine == Fresh(ps, claimed) && now == claimed + set p | p in ps
  {
    mine, now := [], claimed;
    for i := 0 to |ps|
      invariant mine == Fresh(ps[..i], claimed) && now == claimed + set p | p in ps[..i]
    {
      PrefixStep(ps, i);
      assert ps[..i + 1] == ps[..i] + [ps[i]];
      if ps[i] !in now {
        mine, now := mine + [ps[i]], now + {ps[i]};
      }
    }
    assert ps[..|ps|] == ps;
  }

  lemma {:induction false} NamedBySpeakable(lines: seq<string>, spoken: set<string>)
    ensures Named(SpeakableLines(lines, spoken)) == Named(lines) * spoken
  {
    hide TransportOf;
    if lines != [] {
      NamedBySpeakable(Init(lines), spoken);
      InitLast(SpeakableLines(Init(lines), spoken), Last(lines));
    }
  }

  /**
   What the plan says of one protocol: it is launched exactly when a line names it and something offers it; then its
   first offerer speaks it, once unless it was given by hand more often; and it is missing exactly when a line
   names it and nothing offers it.
   */
  lemma PlanExact(lines: seq<string>, source: string, extra: seq<Transport>, found: seq<Transport>, p: string)
    ensures var plan := Planned(lines, source, extra, found);
            var offered := Speaker(extra + found, p);
            && (p in Named(plan.lines) <==> p in Named(lines) && offered.Some?)
            && InOrder(plan.missing, ByName) && (p in plan.missing <==> p in Named(lines) && offered.None?)
            && Speaker(plan.transports, p) == (if p in Named(plan.lines) then offered else None)
            && TimesIn(plan.transports, p) == if p !in Named(plan.lines) then 0
                                              else if p in Spoken(extra) then TimesIn(extra, p) else 1
  {
    hide Restrict, Claim, TransportOf, SpeakableLines, Named, Spoken, TimesIn, Speaker, Missing, InOrder;
    var spoken := Spoken(extra) + Spoken(found);
    NamedBySpeakable(lines, spoken);
    MissingExact(lines, spoken);
    ClaimSpoken(extra, found);
    ClaimTimes(extra, found, p);
    ClaimSpeaker(extra, found, p);
    SpokenIff(Claim(extra, found), p);
    RestrictSpeaks(Claim(extra, found), Named(SpeakableLines(lines, spoken)), p);
  }

  /** Lines are only struck out, and exactly those nothing can speak. */
  lemma {:induction false} SpeakableExact(lines: seq<string>, spoken: set<string>, line: string)
    ensures Times(SpeakableLines(lines, spoken), line) == if Speakable(line, spoken) then Times(lines, line) else 0
    ensures Subsequence(SpeakableLines(lines, spoken), lines)
  {
    hide TransportOf, Speakable;
    if lines != [] {
      SpeakableExact(Init(lines), spoken, line);
      InitLast(SpeakableLines(Init(lines), spoken), Last(lines));
    }
  }

  // ---------------------------------------------------------------- the waves

  datatype Wave = Wave(name: string, plan: Plan)

  function WaveOf(plan: Plan, name: string): Wave {
    Wave(name, Plan(OfKind(plan.lines, name), Restrict(plan.transports, {name}), [], plan.source))
  }

  function Names(waves: seq<Wave>): (names: seq<string>)
    ensures |names| == |waves|
  {
    seq(|waves|, i requires 0 <= i < |waves| => waves[i].name)
  }

  /** One wave for every kind of line, in order. */
  ghost predicate SplitInto(plan: Plan, first: Option<string>, waves: seq<Wave>) {
    && InOrder(Names(waves), ByTurn(first))
    && (forall x :: x in Names(waves) <==> x in Kinds(plan.lines))
    && forall i :: 0 <= i < |waves| ==> waves[i] == WaveOf(plan, waves[i].name)
  }

  function Group(grouped: map<string, seq<string>>, kind: string): seq<string> {
    if kind in grouped then grouped[kind] else []
  }

  method GroupByKind(lines: seq<string>) returns (grouped: map<string, seq<string>>)
    ensures grouped.Keys == Kinds(lines)
    ensures forall k :: k in grouped ==> grouped[k] == OfKind(lines, k)
  {
    hide Kind, TransportOf;
    grouped := map[];
    for i := 0 to |lines|
      invariant grouped.Keys == Kinds(lines[..i])
      invariant forall k :: Group(grouped, k) == OfKind(lines[..i], k)
    {
      PrefixStep(lines, i);
      var kind := Kind(lines[i]);
      grouped := grouped[kind := Group(grouped, kind) + [lines[i]]];
    }
    assert lines[..|lines|] == lines;
    forall k | k in grouped ensures grouped[k] == OfKind(lines, k) {
      assert Group(grouped, k) == OfKind(lines, k);
    }
  }

  method Waves(plan: Plan, first: Option<string>) returns (waves: seq<Wave>)
    ensures |Kinds(plan.lines)| < 2 ==> waves == []
    ensures |Kinds(plan.lines)| >= 2 ==> SplitInto(plan, first, waves)
  {
    hide Kinds, OfKind, InOrder, Restrict;
    var grouped := GroupByKind(plan.lines);
    if |grouped.Keys| < 2 {
      return [];
    }
    var names := SortedNames(grouped.Keys, ByTurn(first));
    waves := [];
    for i := 0 to |names|
      invariant |waves| == i && forall j :: 0 <= j < i ==> waves[j] == WaveOf(plan, names[j])
    {
      var transports := Retain(plan.transports, {names[i]});
      assert names[i] in grouped;
      waves := waves + [Wave(names[i], Plan(grouped[names[i]], transports, [], plan.source))];
    }
    assert Names(waves) == names;
  }

  lemma SplitIsUnique(plan: Plan, first: Option<string>, waves: seq<Wave>, others: seq<Wave>)
    requires SplitInto(plan, first, waves) && SplitInto(plan, first, others)
    ensures waves == others
  {
    hide InOrder, WaveOf;
    OrderIsUnique(Names(waves), Names(others), ByTurn(first));
    forall i | 0 <= i < |waves| ensures waves[i] == others[i] {
      assert Names(waves)[i] == Names(others)[i];
    }
  }

  /** The remembered transport, if there are lines for it, is tried first. */
  lemma RememberedGoesFirst(plan: Plan, name: string, waves: seq<Wave>)
    requires SplitInto(plan, Some(name), waves) && name in Kinds(plan.lines)
    ensures waves != [] && waves[0].name == name
  {
    hide Kinds, WaveOf, Known, Alphabetic;
    var i :| 0 <= i < |Names(waves)| && Names(waves)[i] == name;
    assert i > 0 ==> Before(Names(waves)[0], Names(waves)[i], ByTurn(Some(name)));
  }

  function AllLines(waves: seq<Wave>): seq<string> {
    if waves == [] then [] else AllLines(Init(waves)) + Last(waves).plan.lines
  }

  lemma {:induction false} LinesSoFar(plan: Plan, waves: seq<Wave>, line: string)
    requires forall i :: 0 <= i < |waves| ==> waves[i] == WaveOf(plan, waves[i].name)
    requires forall i, j :: 0 <= i < j < |waves| ==> waves[i].name != waves[j].name
    ensures Times(AllLines(waves), line) == if Kind(line) in Names(waves) then Times(plan.lines, line) else 0
  {
    hide Kind, Restrict, OfKind;
    if waves != [] {
      LinesSoFar(plan, Init(waves), line);
      TimesConcat(AllLines(Init(waves)), Last(waves).plan.lines, line);
      OfKindTimes(plan.lines, Last(waves).name, line);
      assert Names(waves) == Names(Init(waves)) + [Last(waves).name];
      if Kind(line) == Last(waves).name {
        assert Kind(line) !in Names(Init(waves));
      }
    }
  }

  /** Splitting loses and repeats no line. */
  lemma WavesLoseNothing(plan: Plan, first: Option<string>, waves: seq<Wave>, line: string)
    requires SplitInto(plan, first, waves)
    ensures Times(AllLines(waves), line) == Times(plan.lines, line)
  {
    hide Kind, WaveOf, AllLines, Before;
    forall i, j | 0 <= i < j < |waves| ensures waves[i].name != waves[j].name {
      assert Names(waves)[i] == waves[i].name && Names(waves)[j] == waves[j].name;
      StrictOrder(waves[i].name, waves[j].name, waves[j].name, ByTurn(first));
    }
    LinesSoFar(plan, waves, line);
    OfKindTimes(plan.lines, Kind(line), line);
    KindsIff(plan.lines, Kind(line));
  }

  lemma {:induction false} KindsAreNamed(lines: seq<string>, kind: string)
    requires kind != VANILLA
    ensures kind in Kinds(lines) <==> kind in Named(lines)
  {
    hide TransportOf;
    if lines != [] {
      KindsAreNamed(Init(lines), kind);
    }
  }

  /**
   Every wave but the plain one can run: it launches the program that first offers its transport, and every
   program it launches speaks that transport and nothing else.
   */
  lemma WavesAreRunnable(lines: seq<string>, source: string, extra: seq<Transport>, found: seq<Transport>,
                         first: Option<string>, waves: seq<Wave>, i: nat)
    requires SplitInto(Planned(lines, source, extra, found), first, waves)
    requires i < |waves| && waves[i].name != VANILLA
    ensures var wave := waves[i].plan;
            && wave.lines != [] && wave.transports != []
            && (forall k :: 0 <= k < |wave.transports| ==>
                  wave.transports[k].protocols != [] && forall p :: p in wave.transports[k].protocols ==>
                      p == waves[i].name)
            && Speaker(wave.transports, waves[i].name) == Speaker(extra + found, waves[i].name)
            && Speaker(wave.transports, waves[i].name).Some?
  {
    hide Kinds, Kind, OfKind, Named, Restrict, Planned, Before;
    var plan, name := Planned(lines, source, extra, found), waves[i].name;
    assert Names(waves)[i] == name;
    KindsIff(plan.lines, name);
    KindsAreNamed(plan.lines, name);
    PlanExact(lines, source, extra, found, name);
    RestrictSpeaks(plan.transports, {name}, name);
    var mine := waves[i].plan.transports;
    forall k | 0 <= k < |mine|
      ensures mine[k].protocols != [] && forall p :: p in mine[k].protocols ==> p == name
    {
      RestrictIsTight(plan.transports, {name}, k);
    }
  }

  /** From the fetched lines to the waves: every line something can speak is tried exactly as often as it was given. */
  lemma EveryUsableLineIsTried(lines: seq<string>, source: string, extra: seq<Transport>, found: seq<Transport>,
                               first: Option<string>, waves: seq<Wave>, line: string)
    requires SplitInto(Planned(lines, source, extra, found), first, waves)
    ensures Times(AllLines(waves), line) ==
              if Speakable(line, Spoken(extra) + Spoken(found)) then Times(lines, line) else 0
  {
    hide SplitInto, AllLines, Times, Speakable, Spoken, SpeakableLines, Restrict;
    WavesLoseNothing(Planned(lines, source, extra, found), first, waves, line);
    SpeakableExact(lines, Spoken(extra) + Spoken(found), line);
  }
}
