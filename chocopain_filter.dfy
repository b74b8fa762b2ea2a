/**
 * Filter "Chocopain": a message naming the pastry by either of its regional
 * names as a whole word, `/\bchocolatine\b|\bpain au chocolat\b/i`.
 */
module ChocopainFilter {

  import opened Options
  import opened Text
  import opened Platform
  import opened ChannelLogger
  import opened FilterReport
  import opened LiteralSearch

  /** The alternatives, in the order the expression lists them. */
  const Words: seq<string> := ["chocolatine", "pain au chocolat"]

  predicate Fires(content: string)
  {
    Search(content, Words, true).Some?
  }

  /** `match[0]`: the word as the message spells it. */
  function Word(content: string): (w: string)
    requires Fires(content)
    ensures Lower(w) in Words
  {
    var h := Search(content, Words, true).value;
    WordsAreLowerCase();
    OccurrenceFolds(content, h.pos, Words[h.alt]);
    Matched(content, Words, h)
  }

  lemma WordsAreLowerCase()
    ensures forall k :: 0 <= k < |Words| ==> Lower(Words[k]) == Words[k]
  {
    assert Lower(Words[0]) == Words[0];
    assert Lower(Words[1]) == Words[1];
  }

  function Response(msg: Message, channel: Option<Id>, net: Net): Run
  {
    if Fires(msg.content)
    then Report(msg.id, msg.content, ChocopainWarning, ChocopainLog(Word(msg.content)), None, channel, net)
    else Run([], Done)
  }

  method Apply(logger: Logger, msg: Message, net: Net) returns (r: Run)
    ensures r == Response(msg, logger.channel, net)
  {
    var content := msg.content;
    var found := Search(content, Words, true);
    if found.Some? {
      var word := Matched(content, Words, found.value);
      r := Deliver(logger, msg.id, content, ChocopainWarning, ChocopainLog(word), None, net);
    } else {
      r := Run([], Done);
    }
  }

  /** It fires exactly when one of the two words occurs as a whole word; the log names it in the message's casing. */
  lemma FiresIff(msg: Message, channel: Id, net: Net)
    requires net.replyOk && net.sendOk && net.logReplyOk
    ensures Response(msg, Some(channel), net).effects != [] <==>
              exists p: nat, k :: 0 <= k < |Words| && MatchesAt(msg.content, p, Words[k], true)
    ensures Fires(msg.content) ==>
              Response(msg, Some(channel), net).effects[1] == Logged(channel, None, ChocopainLog(Word(msg.content)))
  {
  }

  /** Capitals do not matter, surrounding punctuation does not matter, and the word keeps its casing in the log. */
  lemma CapitalisedWordFires()
    ensures Fires("CHOCOLATINE !") && Word("CHOCOLATINE !") == "CHOCOLATINE"
  {
    var s := "CHOCOLATINE !";
    assert OccursAt(s, 0, Words[0]);
    assert WordBoundary(s, 11);
    SearchFinds(s, Words, true, Hit(0, 0));
  }

  /** A word that only contains one of the names is not the name: plurals and prefixes stay quiet. */
  lemma PartWordsAreQuiet()
    ensures !Fires("chocolatines") && !Fires("xchocolatine")
  {
    var s, t := "chocolatines", "xchocolatine";
    forall q: nat, k | 0 <= k < |Words| ensures !MatchesAt(s, q, Words[k], true) {
      if k == 0 && q == 0 { assert !WordBoundary(s, 11); }
      if k == 0 && q == 1 { assert !SameLetter(s[1], Words[0][0]); }
    }
    forall q: nat, k | 0 <= k < |Words| ensures !MatchesAt(t, q, Words[k], true) {
      if k == 0 && q == 0 { assert !SameLetter(t[0], Words[0][0]); }
      if k == 0 && q == 1 { assert !WordBoundary(t, 1); }
    }
  }

  /** A whole word stays whole when the message goes on after a space or punctuation. */
  lemma FiringSurvivesSeparatedSuffix(content: string, more: string)
    requires Fires(content) && (more == [] || !IsWordChar(more[0]))
    ensures Fires(content + more)
  {
    FramedSurvivesSeparatedSuffix(content, more, Words);
  }
}
