/**
  The runner and its helpers together: what the runner writes on the command line is what each
  helper reads.
 */
module Helpers {
  import opened Bytes
  import opened Commas
  import opened Decimal
  import opened Spaces
  import opened Wire
  import opened CommandLine
  import C = HelperC
  import HelperCut
  import Go = HelperGo

  predicate Int32(n: int) {
    -0x8000_0000 <= n < 0x8000_0000
  }

  predicate Short16(n: int) {
    0 <= n < 0x1_0000
  }

  predicate InitInt32(init: InitOptions) {
    Int32(init.ostreams) && Int32(init.instreams) && Int32(init.attempts) && Int32(init.timeout)
  }

  predicate InitShort(init: InitOptions) {
    Short16(init.ostreams) && Short16(init.instreams) && Short16(init.attempts) && Short16(init.timeout)
  }

  /** Whenever the C helper recovers the runner's messages, the two helpers read the same if and only if no payload
      starts with white space. */
  lemma HelpersAgree(ms: seq<WireMessage>)
    requires C.CMessages(C.Truncate(EncodeMessages(ms), C.COPY_SIZE)) == Some(ms)
    ensures Go.GoMessages(EncodeMessages(ms)) == C.CMessages(C.Truncate(EncodeMessages(ms), C.COPY_SIZE))
       <==> forall i :: 0 <= i < |ms| ==> LeadSpace(ms[i].payload) == 0
  {
    HelperCut.CInvertsIff(ms);
    Go.GoInvertsIff(ms);
    assert Go.GoFits(ms) <==> forall i :: 0 <= i < |ms| ==> LeadSpace(ms[i].payload) == 0;
  }

  const COLON := WireMessage(['a', ':', 'b'], 0, 0)

  lemma ColonInC(text: Bytes)
    requires text == ['a', ':', 'b', ':', '0', ':', '0']
    ensures C.CMessages(C.Truncate(text, C.COPY_SIZE)) == Some([WireMessage(['a'], 0, 0)])
  {
    HelperCut.OneToken(text);
    var rest: Bytes := [':', '0'];
    assert text == ['a'] + [':'] + (['b'] + [':'] + (Dec(0) + rest));
    C.PiecesSpec(['a'], ['b'], Dec(0) + rest);
    StrToUlDec(0, rest);
    assert StrToUl(['b']) == 0;
    C.CAllOne(text);
  }

  lemma ColonParts(text: Bytes)
    requires text == ['a', ':', 'b', ':', '0', ':', '0']
    ensures |Split(text, ':')| == 4
  {
    SplitFirst(['a'], ['b', ':', '0', ':', '0'], ':');
    SplitFirst(['b'], ['0', ':', '0'], ':');
    SplitFirst(['0'], ['0'], ':');
    SplitOne(['0'], ':');
    assert text == ['a'] + [':'] + ['b', ':', '0', ':', '0'];
    assert ['b', ':', '0', ':', '0'] == ['b'] + [':'] + ['0', ':', '0'];
    assert ['0', ':', '0'] == ['0'] + [':'] + ['0'];
  }

  lemma ColonInGo(text: Bytes)
    requires text == ['a', ':', 'b', ':', '0', ':', '0']
    ensures Go.GoMessages(text) == None
  {
    ColonParts(text);
    SplitOne(text, ',');
    assert Go.TrimSpace(text) == text;
    Go.OneItem(text);
  }

  /** A colon in a payload: the C helper takes what follows it for the stream, without an error, and the Go helper
      refuses the message. */
  lemma ColonIsMisread()
    ensures C.CMessages(C.Truncate(EncodeMessages([COLON]), C.COPY_SIZE)) == Some([WireMessage(['a'], 0, 0)])
    ensures Go.GoMessages(EncodeMessages([COLON])) == None
  {
    var text := EncodeMessages([COLON]);
    assert text == ['a', ':', 'b', ':', '0', ':', '0'];
    ColonInC(text);
    ColonInGo(text);
  }

  lemma ShortDec(n: int)
    requires Int32(n)
    ensures Short(DecInt(n)) == n <==> Short16(n)
  {
    CAtoiDec(n);
  }

  lemma InitRecovered(init: InitOptions)
    requires InitInt32(init)
    ensures ReceivedInit(init) == init <==> InitShort(init)
  {
    ShortDec(init.ostreams);
    ShortDec(init.instreams);
    ShortDec(init.attempts);
    ShortDec(init.timeout);
  }

  /** The list a flag value stands for. */
  function ListOf(value: Option<Bytes>): seq<Bytes> {
    if value == None then [] else C.Tokens(value.value)
  }

  predicate Listable(parts: seq<Bytes>) {
    forall i :: 0 <= i < |parts| ==> parts[i] != [] && ',' !in parts[i]
  }

  lemma ListRecovered(parts: seq<Bytes>)
    requires Listable(parts)
    ensures ListOf(Listed(parts)) == parts
  {
    TokensOfJoin(parts);
  }

  /** The command line the runner starts a helper with parses, and every field of the endpoint is recovered:
      the lists by splitting at commas, the numbers exactly, the four init values exactly when they fit
      sixteen bits. An empty expected failure counts as none. */
  lemma OptionsRecovered(e: Endpoint, mode: Bytes, program: Bytes)
    requires Int32(e.readMessages) && InitInt32(e.init)
    requires Listable(e.bindAddrs) && Listable(e.connectAddrs) && Listable(e.subscribe)
    ensures var argv := [program] + Flags(e, mode);
      && |argv| >= 2
      && ParseArgs(Cleared(argv[1]), argv[2..]) == Some(Received(e, mode))
    ensures var o := Received(e, mode);
      && o.mode == mode
      && ListOf(o.bindAddrs) == e.bindAddrs && ListOf(o.connectAddrs) == e.connectAddrs &&
        ListOf(o.subscribe) == e.subscribe
      && o.readMessages == e.readMessages
      && o.setNodelay == e.setNodelay && o.emitLocalAddrs == e.emitLocalAddrs && o.emitPeerAddrs == e.emitPeerAddrs
      && (o.expectFailure == e.expectFailure <==> e.expectFailure != Some([]))
      && (o.messages == None <==> e.messages == [])
      && (o.messages.Some? ==> o.messages.value == EncodeMessages(e.messages))
      && (o.init == e.init <==> InitShort(e.init))
  {
    var flags := Flags(e, mode);
    assert ([program] + flags)[2..] == flags[1..] == flags[1..] + [];
    FlagsParse(e, mode, []);
    ListRecovered(e.bindAddrs);
    ListRecovered(e.connectAddrs);
    ListRecovered(e.subscribe);
    CAtoiDec(e.readMessages);
    InitRecovered(e.init);
  }
}
