/**
  The helper's side of the command line letter by letter: the text of the messages, the limits within
  which they come through, the flags and what each of them sets.
 */
module HelperSpelled {
  import opened Bytes
  import opened Commas
  import opened Decimal
  import opened Spaces
  import opened Wire
  import opened CommandLine
  import C = HelperC
  import HelperCut
  import Go = HelperGo

  // ------------------------------------------------------------------------ messages

  lemma Ungroup(ahead: Bytes, payload: Bytes, stream: Bytes, ppid: Bytes)
    ensures ahead + (payload + [':'] + (stream + [':'] + ppid)) == ahead + payload + ":" + stream + ":" + ppid
  {
  }

  /** The text of a message list: payload, stream and identifier with colons, the messages with commas. */
  lemma EncodingSpelled(ms: seq<WireMessage>, m: WireMessage)
    ensures EncodeMessages([]) == []
    ensures EncodeMessages(ms + [m]) ==
            (if ms == [] then [] else EncodeMessages(ms) + ",") + m.payload + ":" + Dec(m.stream) + ":" + Dec(m.ppid)
  {
    var all := ms + [m];
    HelperCut.EncodeSnoc(all);
    assert all[..|all| - 1] == ms && all[|all| - 1] == m;
    Ungroup(HelperCut.Ahead(ms), m.payload, Dec(m.stream), Dec(m.ppid));
  }

  /** The first 511 bytes of an argument. */
  function Head(text: Bytes): Bytes {
    if |text| <= 511 then text else text[..511]
  }

  /** The numbers within which the C helper recovers every message list, and outside of which it does not. */
  lemma CLimits(ms: seq<WireMessage>)
    ensures var text := EncodeMessages(ms);
      C.CMessages(Head(text)) == Some(ms)
      <==> && |ms| <= 16
           && (forall i :: 0 <= i < |ms| ==> ',' !in ms[i].payload && ':' !in ms[i].payload)
           && (forall i :: 0 <= i < |ms| ==>
                 |ms[i].payload| <= 255 && ms[i].stream <= 65535 && ms[i].ppid <= 4294967295)
           && (|text| <= 511 || (|text| == 512 && ms[|ms| - 1].ppid == 0))
  {
    HelperCut.CInvertsIff(ms);
    assert ms == [] ==> |EncodeMessages(ms)| == 0;
  }

  /** The same for the Go helper. */
  lemma GoLimits(ms: seq<WireMessage>)
    ensures Go.GoMessages(EncodeMessages(ms)) == Some(ms)
      <==> && (forall i :: 0 <= i < |ms| ==> ',' !in ms[i].payload && ':' !in ms[i].payload)
           && (forall i :: 0 <= i < |ms| ==> ms[i].stream <= 65535 && ms[i].ppid <= 4294967295)
           && forall i, cp: Utf8.ScalarValue :: 0 <= i < |ms| && cp in WHITE ==> !(Utf8.Enc(cp) <= ms[i].payload)
  {
    Go.GoInvertsIff(ms);
    forall i | 0 <= i < |ms|
      ensures LeadSpace(ms[i].payload) == 0 <==>
              forall cp: Utf8.ScalarValue :: cp in WHITE ==> !(Utf8.Enc(cp) <= ms[i].payload)
    {
      LeadIff(ms[i].payload);
    }
    assert Go.GoFits(ms) <==> forall i :: 0 <= i < |ms| ==> Go.GoFit(ms[i]);
  }

  // ------------------------------------------------------------------------ what a flag sets

  // Each flag by its letters, and the field it sets.

  lemma AddressFlags(o: Options, v: Bytes, rest: seq<Bytes>)
    ensures ParseArgs(o, ["--bind-addrs", v] + rest) == ParseArgs(o.(bindAddrs := Some(v)), rest)
    ensures ParseArgs(o, ["--connect-addrs", v] + rest) == ParseArgs(o.(connectAddrs := Some(v)), rest)
  {
    SpellParses(o, Setting(BindAddrs, v), rest);
    SpellParses(o, Setting(ConnectAddrs, v), rest);
  }

  lemma MessageFlags(o: Options, v: Bytes, rest: seq<Bytes>)
    ensures ParseArgs(o, ["--subscribe", v] + rest) == ParseArgs(o.(subscribe := Some(v)), rest)
    ensures ParseArgs(o, ["--messages", v] + rest) == ParseArgs(o.(messages := Some(v)), rest)
  {
    SpellParses(o, Setting(Subscribe, v), rest);
    SpellParses(o, Setting(Messages, v), rest);
  }

  lemma OutcomeFlags(o: Options, v: Bytes, rest: seq<Bytes>)
    ensures ParseArgs(o, ["--expect-failure", v] + rest) == ParseArgs(o.(expectFailure := Some(v)), rest)
    ensures ParseArgs(o, ["--read-messages", v] + rest) == ParseArgs(o.(readMessages := CAtoi(v)), rest)
  {
    SpellParses(o, Setting(ExpectFailure, v), rest);
    SpellParses(o, Setting(ReadMessages, v), rest);
  }

  lemma OstreamsFlag(o: Options, v: Bytes, rest: seq<Bytes>)
    ensures ParseArgs(o, ["--init-ostreams", v] + rest) ==
      ParseArgs(o.(init := o.init.(ostreams := CAtoi(v) % 65536)), rest)
  {
    SpellParses(o, Setting(InitOstreams, v), rest);
  }

  lemma InstreamsFlag(o: Options, v: Bytes, rest: seq<Bytes>)
    ensures ParseArgs(o, ["--init-instreams", v] + rest) ==
      ParseArgs(o.(init := o.init.(instreams := CAtoi(v) % 65536)), rest)
  {
    SpellParses(o, Setting(InitInstreams, v), rest);
  }

  lemma AttemptsFlag(o: Options, v: Bytes, rest: seq<Bytes>)
    ensures ParseArgs(o, ["--init-attempts", v] + rest) ==
      ParseArgs(o.(init := o.init.(attempts := CAtoi(v) % 65536)), rest)
  {
    SpellParses(o, Setting(InitAttempts, v), rest);
  }

  lemma TimeoutFlag(o: Options, v: Bytes, rest: seq<Bytes>)
    ensures ParseArgs(o, ["--init-timeout", v] + rest) ==
      ParseArgs(o.(init := o.init.(timeout := CAtoi(v) % 65536)), rest)
  {
    SpellParses(o, Setting(InitTimeout, v), rest);
  }

  lemma NodelayFlag(o: Options, rest: seq<Bytes>)
    ensures ParseArgs(o, ["--set-nodelay"] + rest) == ParseArgs(o.(setNodelay := true), rest)
  {
    SpellParses(o, Setting(SetNodelay, []), rest);
  }

  lemma LocalAddrsFlag(o: Options, rest: seq<Bytes>)
    ensures ParseArgs(o, ["--emit-local-addrs"] + rest) == ParseArgs(o.(emitLocalAddrs := true), rest)
  {
    SpellParses(o, Setting(EmitLocalAddrs, []), rest);
  }

  lemma PeerAddrsFlag(o: Options, rest: seq<Bytes>)
    ensures ParseArgs(o, ["--emit-peer-addrs"] + rest) == ParseArgs(o.(emitPeerAddrs := true), rest)
  {
    SpellParses(o, Setting(EmitPeerAddrs, []), rest);
  }

  /** An argument that is no flag, and a flag whose value is missing. */
  lemma OptionsRefused(o: Options, x: Bytes, rest: seq<Bytes>, f: Flag)
    ensures (forall g: Flag :: x != Name(g)) ==> ParseArgs(o, [x] + rest) == None
    ensures TakesValue(f) ==> ParseArgs(o, [Name(f)]) == None
    ensures TakesValue(f) <==> f != SetNodelay && f != EmitLocalAddrs && f != EmitPeerAddrs
  {
    assert ([x] + rest)[0] == x;
    Recognized(f);
  }

  // ------------------------------------------------------------------------ what the runner writes

  function Valued(name: Bytes, wanted: bool, value: Bytes): seq<Bytes> {
    if wanted then [name, value] else []
  }

  function Switched(name: Bytes, wanted: bool): seq<Bytes> {
    if wanted then [name] else []
  }

  function ListLetters(e: Endpoint): seq<Bytes> {
    Valued("--bind-addrs", e.bindAddrs != [], Join(e.bindAddrs))
    + Valued("--connect-addrs", e.connectAddrs != [], Join(e.connectAddrs))
    + Valued("--subscribe", e.subscribe != [], Join(e.subscribe))
  }

  function SwitchLetters(e: Endpoint): seq<Bytes> {
    Switched("--set-nodelay", e.setNodelay) + Switched("--emit-local-addrs", e.emitLocalAddrs)
    + Switched("--emit-peer-addrs", e.emitPeerAddrs)
  }

  function InitLetters(init: InitOptions): seq<Bytes> {
    if init == InitOptions(0, 0, 0, 0) then []
    else ["--init-ostreams", DecInt(init.ostreams), "--init-instreams", DecInt(init.instreams),
          "--init-attempts", DecInt(init.attempts), "--init-timeout", DecInt(init.timeout)]
  }

  function FailureLetters(failure: Option<Bytes>): seq<Bytes> {
    if failure.Some? && failure.value != [] then ["--expect-failure", failure.value] else []
  }

  /** The arguments of a helper, after the program. */
  function FlagLetters(e: Endpoint, mode: Bytes): seq<Bytes> {
    [mode] + (ListLetters(e) + Valued("--read-messages", e.readMessages != 0, DecInt(e.readMessages)) + SwitchLetters(e)
      + (FailureLetters(e.expectFailure) + Valued("--messages", e.messages != [], EncodeMessages(e.messages))
         + InitLetters(e.init)))
  }

  lemma ValuedSpelled(f: Flag, wanted: bool, value: Bytes)
    requires TakesValue(f)
    ensures SpellAll(if wanted then [Setting(f, value)] else []) == Valued(Name(f), wanted, value)
  {
    SpellOne(Setting(f, value));
  }

  lemma SwitchedSpelled(f: Flag, wanted: bool)
    requires !TakesValue(f)
    ensures SpellAll(SwitchSetting(f, wanted)) == Switched(Name(f), wanted)
  {
    SpellOne(Setting(f, []));
  }

  lemma ListsSpelled(e: Endpoint)
    ensures SpellAll(ListSettings(e)) == ListLetters(e)
  {
    var a, b, c := ListSetting(BindAddrs, e.bindAddrs), ListSetting(ConnectAddrs, e.connectAddrs),
      ListSetting(Subscribe, e.subscribe);
    SpellAppend(a + b, c);
    SpellAppend(a, b);
    ValuedSpelled(BindAddrs, e.bindAddrs != [], Join(e.bindAddrs));
    ValuedSpelled(ConnectAddrs, e.connectAddrs != [], Join(e.connectAddrs));
    ValuedSpelled(Subscribe, e.subscribe != [], Join(e.subscribe));
  }

  lemma SwitchesSpelled(e: Endpoint)
    ensures SpellAll(SwitchSettings(e)) == SwitchLetters(e)
  {
    var a, b, c := SwitchSetting(SetNodelay, e.setNodelay), SwitchSetting(EmitLocalAddrs, e.emitLocalAddrs),
      SwitchSetting(EmitPeerAddrs, e.emitPeerAddrs);
    SpellAppend(a + b, c);
    SpellAppend(a, b);
    SwitchedSpelled(SetNodelay, e.setNodelay);
    SwitchedSpelled(EmitLocalAddrs, e.emitLocalAddrs);
    SwitchedSpelled(EmitPeerAddrs, e.emitPeerAddrs);
  }

  lemma InitSpelled(init: InitOptions)
    ensures SpellAll(InitSettings(init)) == InitLetters(init)
  {
    if AnyInit(init) {
      var xs := InitSettings(init);
      SpellFour(xs[0], xs[1], xs[2], xs[3]);
      assert xs == [xs[0], xs[1], xs[2], xs[3]];
    }
  }

  lemma SpellFour(a: Setting, b: Setting, c: Setting, d: Setting)
    ensures SpellAll([a, b, c, d]) == Spell(a) + (Spell(b) + (Spell(c) + Spell(d)))
  {
    SpellOne(d);
    assert [a, b, c, d][1..] == [b, c, d] && [b, c, d][1..] == [c, d] && [c, d][1..] == [d];
    assert SpellAll([c, d]) == Spell(c) + SpellAll([d]);
    assert SpellAll([b, c, d]) == Spell(b) + SpellAll([c, d]);
  }

  lemma LastSpelled(e: Endpoint)
    ensures SpellAll(LastSettings(e)) == FailureLetters(e.expectFailure)
      + Valued("--messages", e.messages != [], EncodeMessages(e.messages)) + InitLetters(e.init)
  {
    var a, b := FailureSetting(e), MessagesSetting(e.messages);
    SpellAppend(a + b, InitSettings(e.init));
    SpellAppend(a, b);
    if Expects(e) {
      SpellOne(Setting(ExpectFailure, e.expectFailure.value));
    }
    ValuedSpelled(Messages, e.messages != [], EncodeMessages(e.messages));
    InitSpelled(e.init);
  }

  lemma ChosenSpelled(e: Endpoint)
    ensures SpellAll(Chosen(e)) == SpellAll(ListSettings(e)) + SpellAll(ReadSetting(e.readMessages))
      + SpellAll(SwitchSettings(e)) + SpellAll(LastSettings(e))
  {
    var lists, read, switches := ListSettings(e), ReadSetting(e.readMessages), SwitchSettings(e);
    SpellAppend(lists + read + switches, LastSettings(e));
    SpellAppend(lists + read, switches);
    SpellAppend(lists, read);
  }

  lemma ReadSpelled(n: int)
    ensures SpellAll(ReadSetting(n)) == Valued("--read-messages", n != 0, DecInt(n))
  {
    ValuedSpelled(ReadMessages, n != 0, DecInt(n));
  }

  /** The flags of an endpoint, in letters and in order. */
  lemma FlagsSpelled(e: Endpoint, mode: Bytes)
    ensures Flags(e, mode) == FlagLetters(e, mode)
  {
    ChosenSpelled(e);
    ListsSpelled(e);
    ReadSpelled(e.readMessages);
    SwitchesSpelled(e);
    LastSpelled(e);
  }
}
