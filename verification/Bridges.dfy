/** Tor bridge lines: which are kept after probing, what is launched to speak them, and the order they are tried in. */
module Bridges {
  import opened Wrappers

  const KEEP_PER_TRANSPORT: nat := 6
  const PREFERENCE: seq<string> := ["obfs4", "webtunnel", "snowflake", "meek_lite", "meek"]
  const UNTESTABLE: seq<string> := ["snowflake", "meek", "meek_lite", "conjure"]
  const VANILLA: string := "vanilla"

  // ---------------------------------------------------------------- the transport a line names

  predicate Whitespace(c: char) {
    var v := c as int;
    || 9 <= v <= 13 || v == 32 || v == 0x85 || v == 0xa0 || v == 0x1680 || 0x2000 <= v <= 0x200a
    || v == 0x2028 || v == 0x2029 || v == 0x202f || v == 0x205f || v == 0x3000
  }

  function LowerChar(c: char): char {
    if 'A' <= c <= 'Z' then c - 'A' + 'a' else c
  }

  function LowerAscii(s: string): (r: string)
    ensures |r| == |s|
  {
    seq(|s|, i requires 0 <= i < |s| => LowerChar(s[i]))
  }

  /** The first word of `s` and what follows it; the word is empty if there is none. */
  function FirstWord(s: string): (r: (string, string))
    ensures |r.1| <= |s|
  {
    if s == [] then ([], [])
    else if Whitespace(s[0]) then FirstWord(s[1..])
    else TakeWord(s)
  }

  function TakeWord(s: string): (r: (string, string))
    ensures |r.1| <= |s|
  {
    if s == [] || Whitespace(s[0]) then ([], s)
    else var rest := TakeWord(s[1..]); ([s[0]] + rest.0, rest.1)
  }

  /** The transport a bridge line needs; `None` for a plain address, and for a line without words. */
  function TransportOf(line: string): Option<string> {
    var one := FirstWord(line);
    var first := if LowerAscii(one.0) == "bridge" then FirstWord(one.1).0 else one.0;
    if first == [] || '0' <= first[0] <= '9' || first[0] == '[' || '=' in first then None
    else Some(LowerAscii(first))
  }

  function Kind(line: string): string {
    var transport := TransportOf(line);
    if transport.Some? then transport.value else VANILLA
  }

  // ---------------------------------------------------------------- lists

  function Init<T>(s: seq<T>): seq<T>
    requires s != []
  {
    s[..|s| - 1]
  }

  function Last<T>(s: seq<T>): T
    requires s != []
  {
    s[|s| - 1]
  }

  lemma InitLast<T>(s: seq<T>, x: T)
    ensures Init(s + [x]) == s && Last(s + [x]) == x
  {
  }

  lemma PrefixStep<T>(s: seq<T>, i: nat)
    requires i < |s|
    ensures Init(s[..i + 1]) == s[..i] && Last(s[..i + 1]) == s[i]
  {
  }

  /** How often `x` occurs. */
  function Times(s: seq<string>, x: string): (n: nat)
    ensures n > 0 <==> x in s
  {
    if s == [] then 0
    else
      assert s == Init(s) + [Last(s)];
      Times(Init(s), x) + if Last(s) == x then 1 else 0
  }

  lemma {:induction false} TimesConcat(s: seq<string>, t: seq<string>, x: string)
    ensures Times(s + t, x) == Times(s, x) + Times(t, x)
  {
    if t == [] {
      assert s + t == s;
    } else {
      assert Init(s + t) == s + Init(t);
      TimesConcat(s, Init(t), x);
    }
  }

  /** `part` is what is left of `whole` after striking some lines out. */
  predicate Subsequence(part: seq<string>, whole: seq<string>)
    decreases |whole|
  {
    || part == []
    || (whole != [] && ((Last(part) == Last(whole) && Subsequence(Init(part), Init(whole)))
                        || Subsequence(part, Init(whole))))
  }

  /** The lines of one kind, in order. */
  function OfKind(lines: seq<string>, kind: string): (r: seq<string>)
    ensures |r| <= |lines|
  {
    if lines == [] then []
    else if Kind(Last(lines)) == kind then OfKind(Init(lines), kind) + [Last(lines)]
    else OfKind(Init(lines), kind)
  }

  lemma OfKindSnoc(lines: seq<string>, line: string, kind: string)
    ensures OfKind(lines + [line], kind) == if Kind(line) == kind then OfKind(lines, kind) + [line]
        else OfKind(lines, kind)
  {
    InitLast(lines, line);
  }

  lemma {:induction false} OfKindTimes(lines: seq<string>, kind: string, x: string)
    ensures Times(OfKind(lines, kind), x) == if Kind(x) == kind then Times(lines, x) else 0
  {
    hide Kind;
    if lines != [] {
      OfKindTimes(Init(lines), kind, x);
      if Kind(Last(lines)) == kind {
        InitLast(OfKind(Init(lines), kind), Last(lines));
      }
    }
  }

  function Kinds(lines: seq<string>): set<string> {
    if lines == [] then {} else Kinds(Init(lines)) + {Kind(Last(lines))}
  }

  lemma {:induction false} KindsIff(lines: seq<string>, kind: string)
    ensures kind in Kinds(lines) <==> OfKind(lines, kind) != []
  {
    hide Kind;
    if lines != [] {
      KindsIff(Init(lines), kind);
    }
  }

  // ---------------------------------------------------------------- which lines are kept after probing

  /** What came of probing one line: it may name no address to try. */
  datatype Probe = NoAddress | Answered | Silent

  /** Fronted transports name an address nobody is meant to answer on, so they are not probed. */
  predicate Alive(line: string, probe: Probe) {
    var transport := TransportOf(line);
    (transport.Some? && transport.value in UNTESTABLE) || probe != Silent
  }

  function Verdicts(lines: seq<string>, probes: seq<Probe>): (alive: seq<bool>)
    requires |lines| == |probes|
    ensures |alive| == |lines|
  {
    seq(|lines|, i requires 0 <= i < |lines| => Alive(lines[i], probes[i]))
  }

  /** Among the first `n` lines, those of one kind that are alive. */
  function Answering(lines: seq<string>, alive: seq<bool>, kind: string, n: nat): seq<string>
    requires |alive| == |lines| && n <= |lines|
  {
    if n == 0 then []
    else if Kind(lines[n - 1]) == kind && alive[n - 1] then Answering(lines, alive, kind, n - 1) + [lines[n - 1]]
    else Answering(lines, alive, kind, n - 1)
  }

  /** No line of this kind is alive, so the probe may be at fault. */
  predicate AllQuiet(lines: seq<string>, alive: seq<bool>, kind: string)
    requires |alive| == |lines|
  {
    Answering(lines, alive, kind, |lines|) == []
  }

  /** The line at `i` is eligible, and `kept` has room for its kind. */
  predicate Keeps(lines: seq<string>, alive: seq<bool>, kept: seq<string>, i: nat)
    requires |alive| == |lines| && i < |lines|
  {
    && (alive[i] || AllQuiet(lines, alive, Kind(lines[i])))
    && |OfKind(kept, Kind(lines[i]))| < KEEP_PER_TRANSPORT
  }

  /** What is kept of the first `n` lines. */
  function Kept(lines: seq<string>, alive: seq<bool>, n: nat): seq<string>
    requires |alive| == |lines| && n <= |lines|
  {
    if n == 0 then []
    else
      var before := Kept(lines, alive, n - 1);
      if Keeps(lines, alive, before, n - 1) then before + [lines[n - 1]] else before
  }

  function Reachable(lines: seq<string>, probes: seq<Probe>): seq<string>
    requires |lines| == |probes|
  {
    Kept(lines, Verdicts(lines, probes), |lines|)
  }

  function CountOf(counts: map<string, nat>, kind: string): nat {
    if kind in counts then counts[kind] else 0
  }

  method KeepReachable(lines: seq<string>, probes: seq<Probe>) returns (kept: seq<string>)
    requires |lines| == |probes|
    ensures kept == Reachable(lines, probes)
  {
    hide Kind, TransportOf, OfKind, Alive;
    var alive := [];
    for i := 0 to |lines|
      invariant |alive| == i && forall j :: 0 <= j < i ==> alive[j] == Alive(lines[j], probes[j])
    {
      alive := alive + [Alive(lines[i], probes[i])];
    }
    assert alive == Verdicts(lines, probes);
    hide Verdicts;
    var answered: map<string, nat> := map[];
    for i := 0 to |lines|
      invariant forall k :: CountOf(answered, k) == |Answering(lines, alive, k, i)|
    {
      if alive[i] {
        answered := answered[Kind(lines[i]) := CountOf(answered, Kind(lines[i])) + 1];
      }
    }
    var held: map<string, nat> := map[];
    kept := [];
    assert forall k :: OfKind([], k) == [];
    for i := 0 to |lines|
      invariant kept == Kept(lines, alive, i)
      invariant forall k :: CountOf(held, k) == |OfKind(kept, k)|
    {
      var kind := Kind(lines[i]);
      var allQuiet := CountOf(answered, kind) == 0;
      assert allQuiet == AllQuiet(lines, alive, kind);
      if !alive[i] && !allQuiet {
        continue;
      }
      if CountOf(held, kind) >= KEEP_PER_TRANSPORT {
        continue;
      }
      held := held[kind := CountOf(held, kind) + 1];
      forall k
        ensures OfKind(kept + [lines[i]], k) == if kind == k then OfKind(kept, k) + [lines[i]] else OfKind(kept, k)
      {
        OfKindSnoc(kept, lines[i], k);
      }
      kept := kept + [lines[i]];
    }
  }

  function FirstFew(s: seq<string>): seq<string> {
    if |s| <= KEEP_PER_TRANSPORT then s else s[..KEEP_PER_TRANSPORT]
  }

  /** The lines of one kind that may be kept: those alive, or all of them if none is. */
  function Worth(lines: seq<string>, alive: seq<bool>, kind: string, n: nat): seq<string>
    requires |alive| == |lines| && n <= |lines|
  {
    if AllQuiet(lines, alive, kind) then OfKind(lines[..n], kind) else Answering(lines, alive, kind, n)
  }

  lemma WorthStep(lines: seq<string>, alive: seq<bool>, kind: string, n: nat)
    requires |alive| == |lines| && n < |lines|
    ensures Worth(lines, alive, kind, 0) == []
    ensures Worth(lines, alive, kind, n + 1) ==
              if Kind(lines[n]) == kind && (alive[n] || AllQuiet(lines, alive, kind))
              then Worth(lines, alive, kind, n) + [lines[n]] else Worth(lines, alive, kind, n)
  {
    hide Kind;
    assert lines[..n + 1] == lines[..n] + [lines[n]];
    OfKindSnoc(lines[..n], lines[n], kind);
  }

  lemma FirstFewStep(s: seq<string>, line: string)
    ensures FirstFew(s + [line]) == if |s| < KEEP_PER_TRANSPORT then s + [line] else FirstFew(s)
    ensures |FirstFew(s)| < KEEP_PER_TRANSPORT <==> |s| < KEEP_PER_TRANSPORT
  {
  }

  lemma KeptStep(lines: seq<string>, alive: seq<bool>, kind: string, n: nat)
    requires |alive| == |lines| && n < |lines|
    ensures var before := OfKind(Kept(lines, alive, n), kind);
            OfKind(Kept(lines, alive, n + 1), kind) ==
              if Kind(lines[n]) == kind && (alive[n] || AllQuiet(lines, alive, kind)) && |before| < KEEP_PER_TRANSPORT
              then before + [lines[n]] else before
  {
    hide Kind, AllQuiet, OfKind;
    OfKindSnoc(Kept(lines, alive, n), lines[n], kind);
  }

  lemma {:induction false} KeptByKind(lines: seq<string>, alive: seq<bool>, kind: string, n: nat)
    requires |alive| == |lines| && n <= |lines|
    ensures OfKind(Kept(lines, alive, n), kind) == FirstFew(Worth(lines, alive, kind, n))
  {
    if n == 0 {
      hide Kind, AllQuiet;
      assert lines[..0] == [];
    } else {
      hide *;
      KeptByKind(lines, alive, kind, n - 1);
      KeptStep(lines, alive, kind, n - 1);
      WorthStep(lines, alive, kind, n - 1);
      FirstFewStep(Worth(lines, alive, kind, n - 1), lines[n - 1]);
      FewAreAll(Worth(lines, alive, kind, n - 1));
    }
  }

  lemma FewAreAll(s: seq<string>)
    ensures |s| < KEEP_PER_TRANSPORT ==> FirstFew(s) == s
  {
  }

  lemma {:induction false} AnsweringArePart(lines: seq<string>, alive: seq<bool>, kind: string, n: nat)
    requires |alive| == |lines| && n <= |lines|
    ensures |Answering(lines, alive, kind, n)| <= |OfKind(lines[..n], kind)|
  {
    hide Kind;
    if n > 0 {
      AnsweringArePart(lines, alive, kind, n - 1);
      PrefixStep(lines, n - 1);
    }
  }

  /**
   Of every kind, the first six of its answering lines are kept, in order, or the first six of all its lines when
   none answers: no kind is lost, and a dead line stays only when its whole kind is silent.
   */
  lemma ReachableByKind(lines: seq<string>, probes: seq<Probe>, kind: string)
    requires |lines| == |probes|
    ensures var answering := Answering(lines, Verdicts(lines, probes), kind, |lines|);
            OfKind(Reachable(lines, probes), kind) ==
                FirstFew(if answering == [] then OfKind(lines, kind) else answering)
    ensures |OfKind(Reachable(lines, probes), kind)| <= KEEP_PER_TRANSPORT
    ensures kind in Kinds(Reachable(lines, probes)) <==> kind in Kinds(lines)
  {
    hide Kind, OfKind, Answering, Kept, Verdicts, Kinds;
    var alive := Verdicts(lines, probes);
    assert lines[..|lines|] == lines;
    KeptByKind(lines, alive, kind, |lines|);
    AnsweringArePart(lines, alive, kind, |lines|);
    KindsIff(lines, kind);
    KindsIff(Reachable(lines, probes), kind);
  }

  /** Keeping only strikes lines out. */
  lemma {:induction false} KeptInOrder(lines: seq<string>, alive: seq<bool>, n: nat)
    requires |alive| == |lines| && n <= |lines|
    ensures Subsequence(Kept(lines, alive, n), lines[..n])
  {
    hide Keeps;
    if n > 0 {
      KeptInOrder(lines, alive, n - 1);
      PrefixStep(lines, n - 1);
      InitLast(Kept(lines, alive, n - 1), lines[n - 1]);
    }
  }

  lemma ReachableInOrder(lines: seq<string>, probes: seq<Probe>)
    requires |lines| == |probes|
    ensures Subsequence(Reachable(lines, probes), lines)
  {
    hide Kept, Verdicts, Subsequence;
    KeptInOrder(lines, Verdicts(lines, probes), |lines|);
    assert lines[..|lines|] == lines;
  }
}
