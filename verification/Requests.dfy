/**
  What the bodies of the complete and unsupported requests say to their handlers.
 */
module Requests {
  import opened Bytes
  import opened Execution
  import opened Lifecycle
  import opened JsonGrammar
  import opened JsonSpec
  import opened JsonParser
  import opened JsonPrinter

  const ASSOC_IDS: Bytes := "assoc_ids"
  const EVIDENCE_KIND: Bytes := "evidence_kind"
  const EVIDENCE_TEXT: Bytes := "evidence_text"
  const REPORT_TEXT: Bytes := "report_text"
  const REASON: Bytes := "reason"

  const NOT_AN_ARRAY := "assoc_ids must be a JSON array of strings"
  const NOT_STRINGS := "assoc_ids must contain only strings"

  /** A body is refused with an error text, before the handler looks at the feature, or carries a report. */
  datatype Reading = Refused(error: string) | Accepted(report: Report)

  function BodyOf(reading: Reading): Body {
    match reading
    case Refused(_) => Malformed
    case Accepted(report) => Parsed(report)
  }

  /** The string under a key; a key that is missing or holds something else reads as the empty string. */
  function TextAt(members: map<Bytes, Json>, key: Bytes): Bytes {
    if key in members && members[key].JString? then members[key].s else ""
  }

  predicate OnlyStrings(items: seq<Json>) {
    forall i :: 0 <= i < |items| ==> items[i].JString?
  }

  function StringsOf(items: seq<Json>): (r: seq<Bytes>)
    requires OnlyStrings(items)
    ensures |r| == |items| && forall i :: 0 <= i < |r| ==> items[i] == JString(r[i])
  {
    seq(|items|, i requires 0 <= i < |items| => items[i].s)
  }

  function ReportOf(members: map<Bytes, Json>): Reading {
    if ASSOC_IDS !in members then Accepted(ReportWith(members, []))
    else if !members[ASSOC_IDS].JArray? then Refused(NOT_AN_ARRAY)
    else if !OnlyStrings(members[ASSOC_IDS].items) then Refused(NOT_STRINGS)
    else Accepted(ReportWith(members, StringsOf(members[ASSOC_IDS].items)))
  }

  function ReportWith(members: map<Bytes, Json>, assocIds: seq<Bytes>): Report {
    Report("", TextAt(members, EVIDENCE_KIND), TextAt(members, EVIDENCE_TEXT), TextAt(members, REPORT_TEXT), assocIds)
  }

  function CompletionReading(text: Bytes): Reading {
    match ParseRoot(text)
    case Failed(error) => Refused(error)
    case Done(t, _) => ReportOf(ToMap(t.members))
  }

  function UnsupportedReading(text: Bytes): Reading {
    match ParseRoot(text)
    case Failed(error) => Refused(error)
    case Done(t, _) =>
      if AllStrings(ToJson(t)) then
        var members := ToJson(t).members;
        Accepted(Report(TextAt(members, REASON), TextAt(members, EVIDENCE_KIND), TextAt(members, EVIDENCE_TEXT), "",
          []))
      else Refused("expected string JSON value")
  }

  // ------------------------------------------------------------------------ the reading routines

  method ReadStrings(items: seq<Json>) returns (ok: bool, texts: seq<Bytes>)
    ensures ok <==> OnlyStrings(items)
    ensures ok ==> texts == StringsOf(items)
  {
    texts := [];
    for i := 0 to |items|
      invariant OnlyStrings(items[..i]) && texts == StringsOf(items[..i])
    {
      if !items[i].JString? {
        return false, texts;
      }
      texts := texts + [items[i].s];
    }
    assert items[..|items|] == items;
    ok := true;
  }

  /** What the completion handler does with its body before it takes the lock. */
  method ReadCompletion(text: Bytes) returns (reading: Reading)
    ensures reading == CompletionReading(text)
  {
    var ok, root, error := ParseJsonRootObject(text);
    if !ok {
      return Refused(error);
    }
    var assocIds: seq<Bytes> := [];
    if ASSOC_IDS in root.members {
      if !root.members[ASSOC_IDS].JArray? {
        return Refused(NOT_AN_ARRAY);
      }
      ok, assocIds := ReadStrings(root.members[ASSOC_IDS].items);
      if !ok {
        return Refused(NOT_STRINGS);
      }
    }
    reading := Accepted(ReportWith(root.members, assocIds));
  }

  method ReadUnsupported(text: Bytes) returns (reading: Reading)
    ensures reading == UnsupportedReading(text)
  {
    var ok, params, error := ParseSimpleJsonObject(text);
    if !ok {
      return Refused(error);
    }
    reading := Accepted(Report(Param(params, REASON), Param(params, EVIDENCE_KIND), Param(params, EVIDENCE_TEXT),
      "", []));
  }

  /** A missing parameter reads as the empty string. */
  function Param(params: map<Bytes, Bytes>, key: Bytes): Bytes {
    if key in params then params[key] else ""
  }

  // ------------------------------------------------------------------------ consequences

  /** The last assoc_ids member, if there is one, is a list of strings. */
  ghost predicate AssocsFit(ms: seq<Member>) {
    ASSOC_IDS in ToMap(ms) ==> ToMap(ms)[ASSOC_IDS].JArray? && OnlyStrings(ToMap(ms)[ASSOC_IDS].items)
  }

  /** Exactly the objects of the relaxed grammar whose association numbers are a list of strings are taken. */
  lemma CompletionAcceptedIff(text: Bytes)
    ensures CompletionReading(text).Accepted? <==> exists ms :: Derives(text, Obj(ms), false) && AssocsFit(ms)
  {
    if CompletionReading(text).Accepted? {
      var ms := ParseRoot(text).value.members;
      AcceptsExactlyRelaxed(text, Obj(ms));
      assert AssocsFit(ms);
    }
    if ms :| Derives(text, Obj(ms), false) && AssocsFit(ms) {
      AcceptsExactlyRelaxed(text, Obj(ms));
    }
  }

  /** The report as a JSON object. */
  function ReportMembers(r: Report): seq<Member> {
    [Member(EVIDENCE_KIND, Str(r.evidenceKind)), Member(EVIDENCE_TEXT, Str(r.evidenceText)),
     Member(REPORT_TEXT, Str(r.reportText)), Member(ASSOC_IDS, Arr(Strings(r.assocIds)))]
  }

  lemma KeysDiffer()
    ensures EVIDENCE_KIND != EVIDENCE_TEXT && EVIDENCE_KIND != REPORT_TEXT && EVIDENCE_KIND != ASSOC_IDS
    ensures EVIDENCE_TEXT != REPORT_TEXT && EVIDENCE_TEXT != ASSOC_IDS && REPORT_TEXT != ASSOC_IDS
    ensures REASON != EVIDENCE_KIND && REASON != EVIDENCE_TEXT
  {
    assert EVIDENCE_KIND[9] == 'k' && EVIDENCE_TEXT[9] == 't';
    assert |EVIDENCE_KIND| == |EVIDENCE_TEXT| == 13 && |REPORT_TEXT| == 11 && |ASSOC_IDS| == 9 && |REASON| == 6;
  }

  lemma {:induction false} StringJsons(values: seq<Bytes>)
    ensures OnlyStrings(ToJsons(Strings(values))) && StringsOf(ToJsons(Strings(values))) == values
  {
    if values != [] {
      StringJsons(values[1..]);
      assert Strings(values)[1..] == Strings(values[1..]);
      assert ToJsons(Strings(values)) == [JString(values[0])] + ToJsons(Strings(values[1..]));
      assert [values[0]] + StringsOf(ToJsons(Strings(values[1..]))) == values;
    }
  }

  /** The last members of an object decide what its map holds under their keys, whatever stands before them. */
  lemma LastMembers(extra: seq<Member>, last: seq<Member>, i: nat)
    requires i < |last| && forall j :: i < j < |last| ==> last[j].key != last[i].key
    ensures last[i].key in ToMap(extra + last) && ToMap(extra + last)[last[i].key] == ToJson(last[i].value)
  {
    var ms := extra + last;
    assert ms[|extra| + i] == last[i];
    forall j | |extra| + i < j < |ms| ensures ms[j].key != last[i].key {
      assert ms[j] == last[j - |extra|];
    }
    LastKeyWins(ms, |extra| + i);
  }

  /** A report printed as JSON arrives as it was meant, whatever other members the client puts before it. */
  lemma ReportArrives(extra: seq<Member>, r: Report)
    requires r.reason == ""
    ensures CompletionReading(Render(Obj(extra + ReportMembers(r)))) == Accepted(r)
  {
    var last := ReportMembers(r);
    KeysDiffer();
    LastMembers(extra, last, 0);
    LastMembers(extra, last, 1);
    LastMembers(extra, last, 2);
    LastMembers(extra, last, 3);
    StringJsons(r.assocIds);
    RenderedObjectIsStandard(extra + last);
    ReportReads(ToMap(extra + last), r);
  }

  lemma ReportReads(members: map<Bytes, Json>, r: Report)
    requires r.reason == ""
    requires EVIDENCE_KIND in members && members[EVIDENCE_KIND] == JString(r.evidenceKind)
    requires EVIDENCE_TEXT in members && members[EVIDENCE_TEXT] == JString(r.evidenceText)
    requires REPORT_TEXT in members && members[REPORT_TEXT] == JString(r.reportText)
    requires ASSOC_IDS in members && members[ASSOC_IDS].JArray? && OnlyStrings(members[ASSOC_IDS].items)
    requires StringsOf(members[ASSOC_IDS].items) == r.assocIds
    ensures ReportOf(members) == Accepted(r)
  {
  }

  // ------------------------------------------------------------------------ unsupported requests

  /** An unsupported request as a JSON object. */
  function WithdrawalMembers(r: Report): seq<Member> {
    [Member(REASON, Str(r.reason)), Member(EVIDENCE_KIND, Str(r.evidenceKind)),
     Member(EVIDENCE_TEXT, Str(r.evidenceText))]
  }

  lemma {:induction false} StringMembers(ms: seq<Member>)
    requires forall i :: 0 <= i < |ms| ==> ms[i].value.Str?
    ensures forall k :: k in ToMap(ms) ==> ToMap(ms)[k].JString?
  {
    if ms != [] {
      StringMembers(ms[1..]);
    }
  }

  /** An unsupported request printed as JSON arrives as it was meant, whatever other strings stand before it. */
  lemma WithdrawalArrives(extra: seq<Member>, r: Report)
    requires r.reportText == "" && r.assocIds == [] && forall i :: 0 <= i < |extra| ==> extra[i].value.Str?
    ensures UnsupportedReading(Render(Obj(extra + WithdrawalMembers(r)))) == Accepted(r)
  {
    var last := WithdrawalMembers(r);
    KeysDiffer();
    LastMembers(extra, last, 0);
    LastMembers(extra, last, 1);
    LastMembers(extra, last, 2);
    StringMembers(extra + last);
    RenderedObjectIsStandard(extra + last);
  }

  // ------------------------------------------------------------------------ refusals

  /** A completion report whose last association numbers are no list, or not a list of strings. */
  lemma AssocRefusals(ms: seq<Member>)
    requires ASSOC_IDS in ToMap(ms)
    ensures !ToMap(ms)[ASSOC_IDS].JArray? ==>
      CompletionReading(Render(Obj(ms))) == Refused("assoc_ids must be a JSON array of strings")
    ensures ToMap(ms)[ASSOC_IDS].JArray? && !OnlyStrings(ToMap(ms)[ASSOC_IDS].items) ==>
      CompletionReading(Render(Obj(ms))) == Refused("assoc_ids must contain only strings")
  {
    RenderedObjectIsStandard(ms);
  }

  /** An unsupported request with a member that is no string. */
  lemma NestedRefused(ms: seq<Member>, k: Bytes)
    requires k in ToMap(ms) && !ToMap(ms)[k].JString?
    ensures UnsupportedReading(Render(Obj(ms))) == Refused("expected string JSON value")
  {
    RenderedObjectIsStandard(ms);
    assert ToJson(Obj(ms)).members[k] == ToMap(ms)[k];
  }

  // ------------------------------------------------------------------------ missing members

  /** A member that is missing, or is no string, reads as the empty string; without association numbers there are
      none. */
  lemma MissingRead(ms: seq<Member>, key: Bytes)
    requires key !in ToMap(ms) || !ToMap(ms)[key].JString?
    requires CompletionReading(Render(Obj(ms))).Accepted?
    ensures var r := CompletionReading(Render(Obj(ms))).report;
      && (key == "evidence_kind" ==> r.evidenceKind == []) && (key == "evidence_text" ==> r.evidenceText == [])
      && (key == "report_text" ==> r.reportText == [])
      && (key == "assoc_ids" && key !in ToMap(ms) ==> r.assocIds == [])
  {
    RenderedObjectIsStandard(ms);
  }

  /** The same for an unsupported request. */
  lemma MissingWithdrawn(ms: seq<Member>, key: Bytes)
    requires key !in ToMap(ms) && UnsupportedReading(Render(Obj(ms))).Accepted?
    ensures var r := UnsupportedReading(Render(Obj(ms))).report;
      && (key == "reason" ==> r.reason == [])
      && (key == "evidence_kind" ==> r.evidenceKind == []) && (key == "evidence_text" ==> r.evidenceText == [])
  {
    RenderedObjectIsStandard(ms);
  }
}
