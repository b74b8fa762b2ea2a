/**
 * Filter "Known error": looks the message up in a fixed table of error
 * messages, each with a help link, and answers with the link of the match.
 */
module KnownErrorFilter {

  import opened Options
  import opened Text
  import opened Platform
  import opened ChannelLogger
  import opened FilterReport

  datatype KnownError = KnownError(key: string, url: string)

  /** The first and longest key, written in three pieces. */
  const HeadersSentKey: string := HeadersSentStart + HeadersSentMiddle + HeadersSentEnd
  const HeadersSentStart: string := "Cannot modify header"
  const HeadersSentMiddle: string := " information - headers"
  const HeadersSentEnd: string := " already sent by"

  /** The `knownErrors` map, in insertion order. */
  const KnownErrors: seq<KnownError> := [
    KnownError(HeadersSentKey,
               "https://www.grafikart.fr/tutoriels/headers-already-sent-871"),
    KnownError("Trying to get property of non-object",
               "https://www.grafikart.fr/tutoriels/property-of-non-object-873"),
    KnownError("Parse error: syntax error, unexpected",
               "https://grafikart.fr/tutoriels/syntax-error-874"),
    KnownError("Undefined index:",
               "https://www.grafikart.fr/tutoriels/undefined-index-872"),
    KnownError("Cannot read property",
               "https://www.grafikart.fr/tutoriels/javascript-cannot-read-property-1348"),
    KnownError("Cannot read properties",
               "https://www.grafikart.fr/tutoriels/javascript-cannot-read-property-1348"),
    KnownError("RegeneratorRuntime is not defined",
               "https://www.grafikart.fr/tutoriels/javascript-regeneratorruntime-1349")
  ]

  /** The characters that would make a key mean something other than itself inside `new RegExp(key, 'mi')`. */
  predicate IsMeta(c: char)
  {
    c == '\\' || c == '^' || c == '$' || c == '.' || c == '|' || c == '?' || c == '*'
    || c == '+' || c == '(' || c == ')' || c == '[' || c == ']' || c == '{' || c == '}'
  }

  /** Entry `i` of a table: its key occurs in the content, ignoring case. */
  predicate MatchesIn(content: string, table: seq<KnownError>, i: nat)
    requires i < |table|
  {
    Contains(content, table[i].key)
  }

  /** The last entry among the first `n` of a table whose key occurs in the content. */
  function LastMatchBelow(content: string, table: seq<KnownError>, n: nat): (r: Option<nat>)
    requires n <= |table|
    ensures r.Some? ==> r.value < n
  {
    if n == 0 then None
    else if MatchesIn(content, table, n - 1) then Some(n - 1)
    else LastMatchBelow(content, table, n - 1)
  }

  /** The entry `run` ends up holding in `error`: the last match in table order. */
  function Selected(content: string): (r: Option<nat>)
    ensures r.Some? ==> r.value < |KnownErrors|
  {
    LastMatchBelow(content, KnownErrors, |KnownErrors|)
  }

  /** The selection loop over a table: every entry is tried, and a later match overwrites an earlier one. */
  method SelectError(content: string, table: seq<KnownError>) returns (sel: Option<nat>)
    ensures sel.Some? <==> exists i :: 0 <= i < |table| && MatchesIn(content, table, i)
    ensures sel.Some? ==> sel.value < |table| && MatchesIn(content, table, sel.value)
    ensures sel.Some? ==> forall j :: sel.value < j < |table| ==> !MatchesIn(content, table, j)
  {
    sel := None;
    var i := 0;
    while i < |table|
      invariant 0 <= i <= |table|
      invariant sel.Some? <==> exists k :: 0 <= k < i && MatchesIn(content, table, k)
      invariant sel.Some? ==> sel.value < i && MatchesIn(content, table, sel.value)
      invariant sel.Some? ==> forall j :: sel.value < j < i ==> !MatchesIn(content, table, j)
    {
      if MatchesIn(content, table, i) {
        sel := Some(i);
      }
      i := i + 1;
    }
  }

  /** The selected entry is the last match in table order, and there is one exactly when some key matches. */
  lemma {:induction false} SelectedIsLastMatch(content: string, table: seq<KnownError>, n: nat)
    requires n <= |table|
    ensures LastMatchBelow(content, table, n).Some? <==> exists i :: 0 <= i < n && MatchesIn(content, table, i)
    ensures LastMatchBelow(content, table, n).Some? ==>
              var s := LastMatchBelow(content, table, n).value;
              s < n && MatchesIn(content, table, s) && forall j :: s < j < n ==> !MatchesIn(content, table, j)
  {
    if n > 0 {
      SelectedIsLastMatch(content, table, n - 1);
    }
  }

  /** The selection loop computes the last match: the last-match characterisation pins down one result. */
  lemma SelectionUnique(content: string, table: seq<KnownError>, sel: Option<nat>)
    requires sel.Some? <==> exists i :: 0 <= i < |table| && MatchesIn(content, table, i)
    requires sel.Some? ==> sel.value < |table| && MatchesIn(content, table, sel.value)
    requires sel.Some? ==> forall j :: sel.value < j < |table| ==> !MatchesIn(content, table, j)
    ensures sel == LastMatchBelow(content, table, |table|)
  {
    SelectedIsLastMatch(content, table, |table|);
  }

  /** When two keys match, the earlier entry is never the one reported. */
  lemma LaterKeyWins(content: string, i: nat, j: nat)
    requires i < j < |KnownErrors|
    requires MatchesIn(content, KnownErrors, i) && MatchesIn(content, KnownErrors, j)
    ensures Selected(content).Some? && Selected(content).value >= j
  {
    SelectedIsLastMatch(content, KnownErrors, |KnownErrors|);
  }

  /** A key with no metacharacter is matched by `new RegExp(key, 'mi')` as the literal text it is. */
  predicate IsLiteral(key: string)
  {
    forall k :: 0 <= k < |key| ==> !IsMeta(key[k])
  }

  /** Seven entries with distinct, non-empty keys and links; two keys share one link. */
  lemma TableShape()
    ensures |KnownErrors| == 7
    ensures forall i, j :: 0 <= i < j < |KnownErrors| ==> KnownErrors[i].key != KnownErrors[j].key
    ensures forall i :: 0 <= i < |KnownErrors| ==> KnownErrors[i].key != "" && KnownErrors[i].url != ""
    ensures KnownErrors[4].url == KnownErrors[5].url
  {
    assert KnownErrors[4].key[19] != KnownErrors[5].key[19];
  }

  lemma IsLiteralAppend(a: string, b: string)
    requires IsLiteral(a) && IsLiteral(b)
    ensures IsLiteral(a + b)
  {
    forall k | 0 <= k < |a + b| ensures !IsMeta((a + b)[k]) {
      if k >= |a| { assert (a + b)[k] == b[k - |a|]; }
    }
  }

  /** A literal of up to twenty characters, checked in two halves. */
  lemma HalvesAreLiteral(a: string, b: string)
    requires |a| <= 10 && |b| <= 10
    requires forall k :: 0 <= k < |a| ==> !IsMeta(a[k])
    requires forall k :: 0 <= k < |b| ==> !IsMeta(b[k])
    ensures IsLiteral(a + b)
  {
    IsLiteralAppend(a, b);
  }

  lemma FirstKeyIsLiteral()
    ensures IsLiteral(HeadersSentKey)
  {
    HalvesAreLiteral("Cannot mod", "ify header");
    assert HeadersSentStart == "Cannot mod" + "ify header";
    HalvesAreLiteral(" informati", "on - heade");
    assert IsLiteral("rs");
    IsLiteralAppend(" informati" + "on - heade", "rs");
    assert HeadersSentMiddle == " informati" + "on - heade" + "rs";
    HalvesAreLiteral(" already", " sent by");
    assert HeadersSentEnd == " already" + " sent by";
    IsLiteralAppend(HeadersSentStart, HeadersSentMiddle);
    IsLiteralAppend(HeadersSentStart + HeadersSentMiddle, HeadersSentEnd);
  }

  lemma SecondKeyIsLiteral()
    ensures IsLiteral(KnownErrors[1].key)
  {
    HalvesAreLiteral("Trying to ", "get proper");
    HalvesAreLiteral("ty of non-", "object");
    IsLiteralAppend("Trying to " + "get proper", "ty of non-" + "object");
    assert KnownErrors[1].key == ("Trying to " + "get proper") + ("ty of non-" + "object");
  }

  lemma ThirdKeyIsLiteral()
    ensures IsLiteral(KnownErrors[2].key)
  {
    HalvesAreLiteral("Parse erro", "r: syntax ");
    HalvesAreLiteral("error, une", "xpected");
    IsLiteralAppend("Parse erro" + "r: syntax ", "error, une" + "xpected");
    assert KnownErrors[2].key == ("Parse erro" + "r: syntax ") + ("error, une" + "xpected");
  }

  lemma FourthKeyIsLiteral()
    ensures IsLiteral(KnownErrors[3].key)
  {
    HalvesAreLiteral("Undefined ", "index:");
    assert KnownErrors[3].key == "Undefined " + "index:";
  }

  lemma FifthKeyIsLiteral()
    ensures IsLiteral(KnownErrors[4].key)
  {
    HalvesAreLiteral("Cannot rea", "d property");
    assert KnownErrors[4].key == "Cannot rea" + "d property";
  }

  lemma SixthKeyIsLiteral()
    ensures IsLiteral(KnownErrors[5].key)
  {
    HalvesAreLiteral("Cannot rea", "d properti");
    assert IsLiteral("es");
    IsLiteralAppend("Cannot rea" + "d properti", "es");
    assert KnownErrors[5].key == "Cannot rea" + "d properti" + "es";
  }

  lemma LastKeyIsLiteral()
    ensures IsLiteral(KnownErrors[6].key)
  {
    HalvesAreLiteral("Regenerato", "rRuntime i");
    HalvesAreLiteral("s not defi", "ned");
    IsLiteralAppend("Regenerato" + "rRuntime i", "s not defi" + "ned");
    assert KnownErrors[6].key == ("Regenerato" + "rRuntime i") + ("s not defi" + "ned");
  }

  /** No key contains a metacharacter. */
  lemma KeysAreLiteral()
    ensures forall i :: 0 <= i < |KnownErrors| ==> IsLiteral(KnownErrors[i].key)
  {
    FirstKeyIsLiteral();
    assert KnownErrors[0].key == HeadersSentKey;
    SecondKeyIsLiteral();
    ThirdKeyIsLiteral();
    FourthKeyIsLiteral();
    FifthKeyIsLiteral();
    SixthKeyIsLiteral();
    LastKeyIsLiteral();
  }

  /** The filter's run: the report about the selected entry, or nothing when no key matches. */
  function Response(msg: Message, channel: Option<Id>, net: Net): Run
  {
    match Selected(msg.content)
    case None => Run([], Done)
    case Some(i) =>
      Report(msg.id, msg.content, KnownErrorWarning(KnownErrors[i].url), KnownErrorLog(KnownErrors[i].key), None, channel, net)
  }

  method Apply(logger: Logger, msg: Message, net: Net) returns (r: Run)
    ensures r == Response(msg, logger.channel, net)
  {
    var sel := SelectError(msg.content, KnownErrors);
    SelectionUnique(msg.content, KnownErrors, sel);
    if sel.Some? && KnownErrors[sel.value].key != "" && KnownErrors[sel.value].url != "" {
      var error := KnownErrors[sel.value];
      r := Deliver(logger, msg.id, msg.content, KnownErrorWarning(error.url), KnownErrorLog(error.key), None, net);
    } else {
      TableShape();
      r := Run([], Done);
    }
  }

  /** It acts exactly when some key matches; the warning cites the selected link and the log the selected key. */
  lemma ResponseCitesSelection(msg: Message, channel: Id, net: Net)
    requires net.replyOk && net.sendOk && net.logReplyOk
    ensures Response(msg, Some(channel), net).effects != [] <==>
              exists i :: 0 <= i < |KnownErrors| && MatchesIn(msg.content, KnownErrors, i)
    ensures Selected(msg.content).Some? ==>
              var e := KnownErrors[Selected(msg.content).value];
              Response(msg, Some(channel), net).effects ==
                [Reply(msg.id, KnownErrorWarning(e.url)), Logged(channel, None, KnownErrorLog(e.key)), LogReply(msg.id, msg.content)]
  {
    SelectedIsLastMatch(msg.content, KnownErrors, |KnownErrors|);
  }
}
