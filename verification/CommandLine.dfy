/**
  The helper's command line: the flags the runner builds from an endpoint and the options the C
  helper reads from them.
 */
module CommandLine {
  import opened Bytes
  import opened Commas
  import opened Decimal
  import opened Wire

  datatype InitOptions = InitOptions(ostreams: int, instreams: int, attempts: int, timeout: int)

  const NO_INIT := InitOptions(0, 0, 0, 0)

  datatype Endpoint = Endpoint(
    bindAddrs: seq<Bytes>, connectAddrs: seq<Bytes>, subscribe: seq<Bytes>,
    readMessages: int, setNodelay: bool, emitLocalAddrs: bool, emitPeerAddrs: bool,
    expectFailure: Option<Bytes>, messages: seq<WireMessage>, init: InitOptions)

  /** The parsed options; a null pointer is None. */
  datatype Options = Options(
    mode: Bytes, bindAddrs: Option<Bytes>, connectAddrs: Option<Bytes>, subscribe: Option<Bytes>,
    messages: Option<Bytes>, expectFailure: Option<Bytes>, readMessages: int,
    setNodelay: bool, emitLocalAddrs: bool, emitPeerAddrs: bool, init: InitOptions)

  function Cleared(mode: Bytes): Options {
    Options(mode, None, None, None, None, None, 0, false, false, false, NO_INIT)
  }

  datatype Flag =
    | BindAddrs | ConnectAddrs | Subscribe | Messages | ExpectFailure | ReadMessages
    | SetNodelay | EmitLocalAddrs | EmitPeerAddrs
    | InitOstreams | InitInstreams | InitAttempts | InitTimeout

  function Name(f: Flag): Bytes {
    match f
    case BindAddrs => "--bind-addrs"
    case ConnectAddrs => "--connect-addrs"
    case Subscribe => "--subscribe"
    case Messages => "--messages"
    case ExpectFailure => "--expect-failure"
    case ReadMessages => "--read-messages"
    case SetNodelay => "--set-nodelay"
    case EmitLocalAddrs => "--emit-local-addrs"
    case EmitPeerAddrs => "--emit-peer-addrs"
    case InitOstreams => "--init-ostreams"
    case InitInstreams => "--init-instreams"
    case InitAttempts => "--init-attempts"
    case InitTimeout => "--init-timeout"
  }

  predicate TakesValue(f: Flag) {
    f !in {SetNodelay, EmitLocalAddrs, EmitPeerAddrs}
  }

  /** The chain of comparisons that recognizes a flag. */
  function Recognize(arg: Bytes): Option<Flag> {
    if arg == Name(BindAddrs) then Some(BindAddrs)
    else if arg == Name(ConnectAddrs) then Some(ConnectAddrs)
    else if arg == Name(Subscribe) then Some(Subscribe)
    else if arg == Name(Messages) then Some(Messages)
    else if arg == Name(ExpectFailure) then Some(ExpectFailure)
    else if arg == Name(ReadMessages) then Some(ReadMessages)
    else if arg == Name(SetNodelay) then Some(SetNodelay)
    else if arg == Name(EmitLocalAddrs) then Some(EmitLocalAddrs)
    else if arg == Name(EmitPeerAddrs) then Some(EmitPeerAddrs)
    else if arg == Name(InitOstreams) then Some(InitOstreams)
    else if arg == Name(InitInstreams) then Some(InitInstreams)
    else if arg == Name(InitAttempts) then Some(InitAttempts)
    else if arg == Name(InitTimeout) then Some(InitTimeout)
    else None
  }

  /** No two flags have the same name. */
  lemma Recognized(f: Flag)
    ensures Recognize(Name(f)) == Some(f)
  {
    var n := Name(f);
    assert |n| >= 10;
    match f
    case BindAddrs =>
    case ConnectAddrs =>
    case Subscribe =>
    case Messages =>
    case ExpectFailure =>
    case ReadMessages => assert n[2] == 'r';
    case SetNodelay =>
    case EmitLocalAddrs =>
    case EmitPeerAddrs =>
    case InitOstreams => assert n[2] == 'i' && n[7] == 'o';
    case InitInstreams => assert n[2] == 'i';
    case InitAttempts => assert n[2] == 'i' && n[7] == 'a';
    case InitTimeout =>
  }

  function Short(s: Bytes): int {
    CAtoi(s) % 0x1_0000
  }

  /** What one flag, with its value if it takes one, does to the options. */
  function Set(o: Options, f: Flag, value: Bytes): Options {
    match f
    case BindAddrs => o.(bindAddrs := Some(value))
    case ConnectAddrs => o.(connectAddrs := Some(value))
    case Subscribe => o.(subscribe := Some(value))
    case Messages => o.(messages := Some(value))
    case ExpectFailure => o.(expectFailure := Some(value))
    case ReadMessages => o.(readMessages := CAtoi(value))
    case SetNodelay => o.(setNodelay := true)
    case EmitLocalAddrs => o.(emitLocalAddrs := true)
    case EmitPeerAddrs => o.(emitPeerAddrs := true)
    case InitOstreams => o.(init := o.init.(ostreams := Short(value)))
    case InitInstreams => o.(init := o.init.(instreams := Short(value)))
    case InitAttempts => o.(init := o.init.(attempts := Short(value)))
    case InitTimeout => o.(init := o.init.(timeout := Short(value)))
  }

  function ParseArgs(o: Options, args: seq<Bytes>): Option<Options>
    decreases |args|
  {
    if args == [] then Some(o)
    else
      match Recognize(args[0])
      case None => None
      case Some(f) =>
        if !TakesValue(f) then ParseArgs(Set(o, f, []), args[1..])
        else if |args| == 1 then None
        else ParseArgs(Set(o, f, args[1]), args[2..])
  }

  method ParseOptions(argv: seq<Bytes>) returns (r: Option<Options>)
    ensures r == if |argv| < 2 then None else ParseArgs(Cleared(argv[1]), argv[2..])
  {
    if |argv| < 2 {
      return None;
    }
    var opts := Cleared(argv[1]);
    var i := 2;
    ghost var all := ParseArgs(opts, argv[2..]);
    while i < |argv|
      invariant 2 <= i <= |argv| && all == ParseArgs(opts, argv[i..])
    {
      var flag := Recognize(argv[i]);
      assert argv[i..][0] == argv[i] && argv[i..][1..] == argv[i + 1..];
      if flag == None || (TakesValue(flag.value) && i + 1 == |argv|) {
        return None;
      }
      if TakesValue(flag.value) {
        assert argv[i..][1] == argv[i + 1] && argv[i..][2..] == argv[i + 2..];
        i := i + 1;
        opts := Set(opts, flag.value, argv[i]);
      } else {
        opts := Set(opts, flag.value, []);
      }
      i := i + 1;
    }
    return Some(opts);
  }

  // ------------------------------------------------------------------- the runner's side

  predicate AnyInit(init: InitOptions) {
    init.ostreams != 0 || init.instreams != 0 || init.attempts != 0 || init.timeout != 0
  }

  /** An expected failure that is present and not empty. */
  predicate Expects(e: Endpoint) {
    e.expectFailure.Some? && e.expectFailure.value != []
  }

  /** The options the helper ends up with. Numbers go through the helper's conversions. */
  function Received(e: Endpoint, mode: Bytes): Options {
    Options(
      mode, Listed(e.bindAddrs), Listed(e.connectAddrs), Listed(e.subscribe),
      if e.messages == [] then None else Some(EncodeMessages(e.messages)),
      if Expects(e) then e.expectFailure else None,
      ReceivedInt(e.readMessages),
      e.setNodelay, e.emitLocalAddrs, e.emitPeerAddrs,
      ReceivedInit(e.init))
  }

  function ReceivedInt(n: int): int {
    if n == 0 then 0 else CAtoi(DecInt(n))
  }

  function Listed(parts: seq<Bytes>): Option<Bytes> {
    if parts == [] then None else Some(Join(parts))
  }

  function ReceivedInit(init: InitOptions): InitOptions {
    if !AnyInit(init) then NO_INIT
    else InitOptions(Short(DecInt(init.ostreams)), Short(DecInt(init.instreams)),
                     Short(DecInt(init.attempts)), Short(DecInt(init.timeout)))
  }

  /** One flag with its value; a switch has none. */
  datatype Setting = Setting(flag: Flag, value: Bytes)

  function Spell(x: Setting): seq<Bytes> {
    if TakesValue(x.flag) then [Name(x.flag), x.value] else [Name(x.flag)]
  }

  function SpellAll(xs: seq<Setting>): seq<Bytes> {
    if xs == [] then [] else Spell(xs[0]) + SpellAll(xs[1..])
  }

  function ListSetting(f: Flag, parts: seq<Bytes>): seq<Setting> {
    if parts == [] then [] else [Setting(f, Join(parts))]
  }

  function SwitchSetting(f: Flag, wanted: bool): seq<Setting> {
    if wanted then [Setting(f, [])] else []
  }

  function ReadSetting(n: int): seq<Setting> {
    if n == 0 then [] else [Setting(ReadMessages, DecInt(n))]
  }

  function FailureSetting(e: Endpoint): seq<Setting> {
    if Expects(e) then [Setting(ExpectFailure, e.expectFailure.value)] else []
  }

  function MessagesSetting(ms: seq<WireMessage>): seq<Setting> {
    if ms == [] then [] else [Setting(Messages, EncodeMessages(ms))]
  }

  function InitSettings(init: InitOptions): seq<Setting> {
    if !AnyInit(init) then []
    else [Setting(InitOstreams, DecInt(init.ostreams)), Setting(InitInstreams, DecInt(init.instreams)),
          Setting(InitAttempts, DecInt(init.attempts)), Setting(InitTimeout, DecInt(init.timeout))]
  }

  function ListSettings(e: Endpoint): seq<Setting> {
    ListSetting(BindAddrs, e.bindAddrs) + ListSetting(ConnectAddrs, e.connectAddrs)
      + ListSetting(Subscribe, e.subscribe)
  }

  function SwitchSettings(e: Endpoint): seq<Setting> {
    SwitchSetting(SetNodelay, e.setNodelay) + SwitchSetting(EmitLocalAddrs, e.emitLocalAddrs)
    + SwitchSetting(EmitPeerAddrs, e.emitPeerAddrs)
  }

  function LastSettings(e: Endpoint): seq<Setting> {
    FailureSetting(e) + MessagesSetting(e.messages) + InitSettings(e.init)
  }

  /** What the runner sets, in the order in which it does. */
  function Chosen(e: Endpoint): seq<Setting> {
    ListSettings(e) + ReadSetting(e.readMessages) + SwitchSettings(e) + LastSettings(e)
  }

  /** The arguments the runner passes to a helper, after the program. */
  function Flags(e: Endpoint, mode: Bytes): seq<Bytes> {
    [mode] + SpellAll(Chosen(e))
  }

  // ------------------------------------------------------------------- building the flags

  lemma {:induction false} SpellAppend(xs: seq<Setting>, ys: seq<Setting>)
    ensures SpellAll(xs + ys) == SpellAll(xs) + SpellAll(ys)
  {
    if xs == [] {
      assert xs + ys == ys;
    } else {
      SpellAppend(xs[1..], ys);
      assert (xs + ys)[1..] == xs[1..] + ys;
    }
  }

  lemma SpellOne(x: Setting)
    ensures SpellAll([x]) == Spell(x)
  {
    assert [x][1..] == [];
    assert Spell(x) + [] == Spell(x);
  }

  /** One more setting at the end. */
  method AddSetting(flags: seq<Bytes>, ghost xs: seq<Setting>, f: Flag, value: Bytes) returns (longer: seq<Bytes>)
    requires flags != [] && flags[1..] == SpellAll(xs)
    ensures longer != [] && longer[0] == flags[0] && longer[1..] == SpellAll(xs + [Setting(f, value)])
  {
    SpellAppend(xs, [Setting(f, value)]);
    SpellOne(Setting(f, value));
    longer := flags + (if TakesValue(f) then [Name(f), value] else [Name(f)]);
    assert longer[1..] == flags[1..] + Spell(Setting(f, value));
  }

  method AddList(flags: seq<Bytes>, ghost xs: seq<Setting>, f: Flag, parts: seq<Bytes>) returns (longer: seq<Bytes>)
    requires flags != [] && flags[1..] == SpellAll(xs)
    ensures longer != [] && longer[0] == flags[0] && longer[1..] == SpellAll(xs + ListSetting(f, parts))
  {
    longer := flags;
    assert xs + [] == xs;
    if parts != [] {
      longer := AddSetting(flags, xs, f, Join(parts));
    }
  }

  method AddSwitch(flags: seq<Bytes>, ghost xs: seq<Setting>, f: Flag, wanted: bool) returns (longer: seq<Bytes>)
    requires flags != [] && flags[1..] == SpellAll(xs)
    ensures longer != [] && longer[0] == flags[0] && longer[1..] == SpellAll(xs + SwitchSetting(f, wanted))
  {
    longer := flags;
    assert xs + [] == xs;
    if wanted {
      longer := AddSetting(flags, xs, f, []);
    }
  }

  method AddInit(flags: seq<Bytes>, ghost xs: seq<Setting>, init: InitOptions) returns (longer: seq<Bytes>)
    requires flags != [] && flags[1..] == SpellAll(xs)
    ensures longer != [] && longer[0] == flags[0] && longer[1..] == SpellAll(xs + InitSettings(init))
  {
    longer := flags;
    assert xs + [] == xs;
    if AnyInit(init) {
      ghost var ys := InitSettings(init);
      longer := AddSetting(longer, xs, InitOstreams, DecInt(init.ostreams));
      longer := AddSetting(longer, xs + [ys[0]], InitInstreams, DecInt(init.instreams));
      longer := AddSetting(longer, xs + [ys[0]] + [ys[1]], InitAttempts, DecInt(init.attempts));
      longer := AddSetting(longer, xs + [ys[0]] + [ys[1]] + [ys[2]], InitTimeout, DecInt(init.timeout));
      assert xs + [ys[0]] + [ys[1]] + [ys[2]] + [ys[3]] == xs + ys;
    }
  }

  lemma AppendThree(xs: seq<Setting>, a: seq<Setting>, b: seq<Setting>, c: seq<Setting>)
    ensures xs + a + b + c == xs + (a + b + c)
  {
  }

  method AddLists(flags: seq<Bytes>, e: Endpoint, ghost xs: seq<Setting>) returns (longer: seq<Bytes>)
    requires flags != [] && flags[1..] == SpellAll(xs)
    ensures longer != [] && longer[0] == flags[0] && longer[1..] == SpellAll(xs + ListSettings(e))
  {
    ghost var a, b := ListSetting(BindAddrs, e.bindAddrs), ListSetting(ConnectAddrs, e.connectAddrs);
    AppendThree(xs, a, b, ListSetting(Subscribe, e.subscribe));
    longer := AddList(flags, xs, BindAddrs, e.bindAddrs);
    longer := AddList(longer, xs + a, ConnectAddrs, e.connectAddrs);
    longer := AddList(longer, xs + a + b, Subscribe, e.subscribe);
  }

  method AddRead(flags: seq<Bytes>, n: int, ghost xs: seq<Setting>) returns (longer: seq<Bytes>)
    requires flags != [] && flags[1..] == SpellAll(xs)
    ensures longer != [] && longer[0] == flags[0] && longer[1..] == SpellAll(xs + ReadSetting(n))
  {
    longer := flags;
    assert xs + [] == xs;
    if n != 0 {
      longer := AddSetting(longer, xs, ReadMessages, DecInt(n));
    }
  }

  method AddSwitches(flags: seq<Bytes>, e: Endpoint, ghost xs: seq<Setting>) returns (longer: seq<Bytes>)
    requires flags != [] && flags[1..] == SpellAll(xs)
    ensures longer != [] && longer[0] == flags[0] && longer[1..] == SpellAll(xs + SwitchSettings(e))
  {
    ghost var a, b := SwitchSetting(SetNodelay, e.setNodelay), SwitchSetting(EmitLocalAddrs, e.emitLocalAddrs);
    AppendThree(xs, a, b, SwitchSetting(EmitPeerAddrs, e.emitPeerAddrs));
    longer := AddSwitch(flags, xs, SetNodelay, e.setNodelay);
    longer := AddSwitch(longer, xs + a, EmitLocalAddrs, e.emitLocalAddrs);
    longer := AddSwitch(longer, xs + a + b, EmitPeerAddrs, e.emitPeerAddrs);
  }

  method AddLast(flags: seq<Bytes>, e: Endpoint, ghost xs: seq<Setting>) returns (longer: seq<Bytes>)
    requires flags != [] && flags[1..] == SpellAll(xs)
    ensures longer != [] && longer[0] == flags[0] && longer[1..] == SpellAll(xs + LastSettings(e))
  {
    ghost var a, b := FailureSetting(e), MessagesSetting(e.messages);
    AppendThree(xs, a, b, InitSettings(e.init));
    longer := flags;
    assert xs + [] == xs;
    if Expects(e) {
      longer := AddSetting(longer, xs, ExpectFailure, e.expectFailure.value);
    }
    assert xs + a + [] == xs + a;
    if e.messages != [] {
      longer := AddSetting(longer, xs + a, Messages, EncodeMessages(e.messages));
    }
    longer := AddInit(longer, xs + a + b, e.init);
  }

  /** The flags grow group by group. */
  method CommandFlags(e: Endpoint, mode: Bytes) returns (flags: seq<Bytes>)
    ensures flags == Flags(e, mode)
  {
    flags := [mode];
    flags := AddLists(flags, e, []);
    ghost var xs := ListSettings(e);
    assert [] + xs == xs;
    flags := AddRead(flags, e.readMessages, xs);
    xs := xs + ReadSetting(e.readMessages);
    flags := AddSwitches(flags, e, xs);
    xs := xs + SwitchSettings(e);
    flags := AddLast(flags, e, xs);
    assert flags == [flags[0]] + flags[1..];
  }

  // ------------------------------------------------------------------- what the helper makes of them

  function SetAll(o: Options, xs: seq<Setting>): Options
    decreases |xs|
  {
    if xs == [] then o else SetAll(Set(o, xs[0].flag, xs[0].value), xs[1..])
  }

  lemma {:induction false} SetAppend(o: Options, xs: seq<Setting>, ys: seq<Setting>)
    ensures SetAll(o, xs + ys) == SetAll(SetAll(o, xs), ys)
    decreases |xs|
  {
    if xs == [] {
      assert xs + ys == ys;
    } else {
      SetAppend(Set(o, xs[0].flag, xs[0].value), xs[1..], ys);
      assert (xs + ys)[1..] == xs[1..] + ys;
    }
  }

  lemma SpellParses(o: Options, x: Setting, rest: seq<Bytes>)
    ensures ParseArgs(o, Spell(x) + rest) == ParseArgs(Set(o, x.flag, x.value), rest)
  {
    Recognized(x.flag);
    var name := Name(x.flag);
    var pair := [name, x.value] + rest;
    assert pair[0] == name && pair[1] == x.value && pair[2..] == rest;
    var single := [name] + rest;
    assert single[0] == name && single[1..] == rest;
    var unit: Bytes := [];
    assert !TakesValue(x.flag) ==> Set(o, x.flag, x.value) == Set(o, x.flag, unit);
  }

  /** Parsing spelled settings, whatever follows them, sets them one after the other. */
  lemma {:induction false} SettingsParse(o: Options, xs: seq<Setting>, rest: seq<Bytes>)
    ensures ParseArgs(o, SpellAll(xs) + rest) == ParseArgs(SetAll(o, xs), rest)
    decreases |xs|
  {
    if xs == [] {
      assert SpellAll(xs) + rest == rest;
    } else {
      assert SpellAll(xs) + rest == Spell(xs[0]) + (SpellAll(xs[1..]) + rest);
      SpellParses(o, xs[0], SpellAll(xs[1..]) + rest);
      SettingsParse(Set(o, xs[0].flag, xs[0].value), xs[1..], rest);
    }
  }

  lemma SetNoneOrOne(o: Options, xs: seq<Setting>)
    requires |xs| <= 1
    ensures SetAll(o, xs) == if xs == [] then o else Set(o, xs[0].flag, xs[0].value)
  {
    if xs != [] {
      assert xs[1..] == [];
    }
  }

  lemma SetFour(o: Options, a: Setting, b: Setting, c: Setting, d: Setting)
    ensures SetAll(o, [a, b, c, d]) ==
      Set(Set(Set(Set(o, a.flag, a.value), b.flag, b.value), c.flag, c.value), d.flag, d.value)
  {
    assert [a, b, c, d][1..] == [b, c, d] && [b, c, d][1..] == [c, d] && [c, d][1..] == [d] && [d][1..] == [];
    SetNoneOrOne(Set(Set(Set(o, a.flag, a.value), b.flag, b.value), c.flag, c.value), [d]);
    assert SetAll(o, [a, b, c, d]) == SetAll(Set(o, a.flag, a.value), [b, c, d]);
    assert SetAll(Set(o, a.flag, a.value), [b, c, d]) == SetAll(Set(Set(o, a.flag, a.value), b.flag, b.value), [c, d]);
  }

  lemma SetInit(o: Options, init: InitOptions)
    requires o.init == NO_INIT
    ensures SetAll(o, InitSettings(init)) == o.(init := ReceivedInit(init))
  {
    if AnyInit(init) {
      FourInits(o, DecInt(init.ostreams), DecInt(init.instreams), DecInt(init.attempts), DecInt(init.timeout));
    }
  }

  lemma FourInits(o: Options, a: Bytes, b: Bytes, c: Bytes, d: Bytes)
    ensures SetAll(o, [Setting(InitOstreams, a), Setting(InitInstreams, b), Setting(InitAttempts, c),
                       Setting(InitTimeout, d)]) == o.(init := InitOptions(Short(a), Short(b), Short(c), Short(d)))
  {
    SetFour(o, Setting(InitOstreams, a), Setting(InitInstreams, b), Setting(InitAttempts, c), Setting(InitTimeout, d));
  }

  lemma SetRead(o: Options, n: int)
    requires o.readMessages == 0
    ensures SetAll(o, ReadSetting(n)) == o.(readMessages := ReceivedInt(n))
  {
    SetNoneOrOne(o, ReadSetting(n));
  }

  lemma SetLists(o: Options, e: Endpoint)
    requires o.bindAddrs == None && o.connectAddrs == None && o.subscribe == None
    ensures SetAll(o, ListSettings(e)) ==
      o.(bindAddrs := Listed(e.bindAddrs), connectAddrs := Listed(e.connectAddrs), subscribe := Listed(e.subscribe))
  {
    var a, b, c := ListSetting(BindAddrs, e.bindAddrs), ListSetting(ConnectAddrs, e.connectAddrs),
      ListSetting(Subscribe, e.subscribe);
    SetAppend(o, a + b, c);
    SetAppend(o, a, b);
    SetNoneOrOne(o, a);
    SetNoneOrOne(SetAll(o, a), b);
    SetNoneOrOne(SetAll(SetAll(o, a), b), c);
  }

  lemma SetSwitches(o: Options, e: Endpoint)
    requires !o.setNodelay && !o.emitLocalAddrs && !o.emitPeerAddrs
    ensures SetAll(o, SwitchSettings(e)) ==
      o.(setNodelay := e.setNodelay, emitLocalAddrs := e.emitLocalAddrs, emitPeerAddrs := e.emitPeerAddrs)
  {
    var a, b, c := SwitchSetting(SetNodelay, e.setNodelay), SwitchSetting(EmitLocalAddrs, e.emitLocalAddrs),
      SwitchSetting(EmitPeerAddrs, e.emitPeerAddrs);
    SetAppend(o, a + b, c);
    SetAppend(o, a, b);
    SetNoneOrOne(o, a);
    SetNoneOrOne(SetAll(o, a), b);
    SetNoneOrOne(SetAll(SetAll(o, a), b), c);
  }

  lemma SetLast(o: Options, e: Endpoint)
    requires o.expectFailure == None && o.messages == None && o.init == NO_INIT
    ensures SetAll(o, LastSettings(e)) ==
      o.(expectFailure := if Expects(e) then e.expectFailure else None,
         messages := if e.messages == [] then None else Some(EncodeMessages(e.messages)),
         init := ReceivedInit(e.init))
  {
    var a, b, c := FailureSetting(e), MessagesSetting(e.messages), InitSettings(e.init);
    SetAppend(o, a + b, c);
    SetAppend(o, a, b);
    SetNoneOrOne(o, a);
    SetNoneOrOne(SetAll(o, a), b);
    SetInit(SetAll(SetAll(o, a), b), e.init);
  }

  lemma ChosenReceived(e: Endpoint, mode: Bytes)
    ensures SetAll(Cleared(mode), Chosen(e)) == Received(e, mode)
  {
    var o := Cleared(mode);
    var a, b, c := ListSettings(e), ReadSetting(e.readMessages), SwitchSettings(e);
    SetAppend(o, a + b + c, LastSettings(e));
    SetAppend(o, a + b, c);
    SetAppend(o, a, b);
    SetLists(o, e);
    SetRead(SetAll(o, a), e.readMessages);
    SetSwitches(SetAll(SetAll(o, a), b), e);
    SetLast(SetAll(SetAll(SetAll(o, a), b), c), e);
  }

  /** Parsing the runner's arguments, whatever follows them, brings the options to what the endpoint says. */
  lemma FlagsParse(e: Endpoint, mode: Bytes, rest: seq<Bytes>)
    ensures Flags(e, mode)[0] == mode
    ensures ParseArgs(Cleared(mode), Flags(e, mode)[1..] + rest) == ParseArgs(Received(e, mode), rest)
  {
    assert Flags(e, mode)[1..] == SpellAll(Chosen(e));
    SettingsParse(Cleared(mode), Chosen(e), rest);
    ChosenReceived(e, mode);
  }
}
