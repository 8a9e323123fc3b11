/** generate_prompts_gemini: choosing the prompt list out of the drafter's
    parsed reply (app.py, lines 66-80). The text-model call and json.loads are
    abstract: the function receives the parsed value, or None when either
    raised. */
module Prompts {
  import opened Wrappers
  import opened Json

  /** What generate_prompts_gemini returns. A list reply, or a dict whose
      first value is a list, gives a sliced list; a dict whose first value is
      a string gives that string sliced, unchecked. */
  datatype Drafted = PromptList(items: seq<JsonValue>) | PromptText(text: string)

  /** Length Python gives to `s[:stop]` for a sequence of length n. */
  function SliceLength(n: nat, stop: int): (k: nat)
    ensures k <= n
    ensures 0 <= stop ==> k == Min(stop, n)
    ensures stop < 0 ==> k + Min(-stop, n) == n
  {
    if 0 <= stop then Min(stop, n)
    else if n + stop < 0 then 0
    else n + stop
  }

  /** Python's `s[:stop]`: a prefix of s. */
  function SliceTo<T>(s: seq<T>, stop: int): (r: seq<T>)
    ensures r <= s
    ensures |r| == SliceLength(|s|, stop)
  {
    s[..SliceLength(|s|, stop)]
  }

  /** The prompts the rest of the script sees, through `for p in prompts` and
      `prompts[0]`: iterating a string yields its one-character strings. */
  function Items(d: Drafted): seq<JsonValue>
  {
    match d
    case PromptList(xs) => xs
    case PromptText(t) => seq(|t|, i requires 0 <= i < |t| => JString([t[i]]))
  }

  /** `v[:count]` applied to the first value of a dict: a list or a string is
      sliced, anything else raises a TypeError that the bare except turns
      into []. */
  function SliceFirstValue(v: JsonValue, count: int): (r: Drafted)
    ensures v.JList? ==>
      (r.PromptList? && r.items <= v.items && |r.items| == SliceLength(|v.items|, count))
    ensures v.JString? ==>
      (r.PromptText? && r.text <= v.s && |r.text| == SliceLength(|v.s|, count))
    ensures !v.JList? && !v.JString? ==> r == PromptList([])
  {
    match v
    case JList(xs) => PromptList(SliceTo(xs, count))
    case JString(s) => PromptText(SliceTo(s, count))
    case _ => PromptList([])
  }

  /** generate_prompts_gemini(topic, style, count), given what json.loads
      produced for the text model's answer (None: the call, `response.text`
      or the parse raised). */
  function DraftPrompts(reply: Option<JsonValue>, count: int): (r: Drafted)
    // every failure path, and every reply that is neither a list nor a
    // non-empty dict, gives the empty list
    ensures reply.None? ==> r == PromptList([])
    ensures reply.Some? && !reply.value.JList? && !reply.value.JDict? ==> r == PromptList([])
    ensures reply == Some(JDict([])) ==> r == PromptList([])
    // a list reply gives its longest prefix of at most `count` elements
    ensures reply.Some? && reply.value.JList? && 0 <= count ==>
      r.PromptList? && r.items <= reply.value.items &&
      |r.items| == Min(count, |reply.value.items|)
    // a non-empty dict defers to its first value
    ensures reply.Some? && reply.value.JDict? && |reply.value.entries| > 0 ==>
      r == SliceFirstValue(reply.value.entries[0].1, count)
    // never more prompts than requested
    ensures 0 <= count ==> |Items(r)| <= count
  {
    match reply
    case None => PromptList([])
    case Some(JList(xs)) => PromptList(SliceTo(xs, count))
    case Some(JDict(entries)) =>
      // list(prompts.values())[0] raises IndexError on an empty dict
      if |entries| == 0 then PromptList([]) else SliceFirstValue(entries[0].1, count)
    case Some(_) => PromptList([])
  }

  /** Whether the script goes on after drafting (`if prompts:`): the result
      is non-empty exactly when the reply offers a non-empty list or string
      where the function looks for one and `count` is positive. */
  lemma DraftNonEmptyIff(reply: Option<JsonValue>, count: int)
    requires 0 <= count
    ensures |Items(DraftPrompts(reply, count))| > 0 <==>
      0 < count && reply.Some? &&
      ((reply.value.JList? && |reply.value.items| > 0) ||
       (reply.value.JDict? && |reply.value.entries| > 0 &&
        ((reply.value.entries[0].1.JList? && |reply.value.entries[0].1.items| > 0) ||
         (reply.value.entries[0].1.JString? && |reply.value.entries[0].1.s| > 0))))
  {
  }

  /** A dict whose first value is a string makes the script work on single
      characters: "ab" with count 30 gives the prompts "a" and "b". */
  lemma StringValueSplitsIntoCharacters()
    ensures Items(DraftPrompts(Some(JDict([("prompts", JString("ab"))])), 30)) ==
      [JString("a"), JString("b")]
  {
    var r := DraftPrompts(Some(JDict([("prompts", JString("ab"))])), 30);
    assert r == PromptText("ab");
    assert Items(r)[0] == JString("a") && Items(r)[1] == JString("b");
  }
}
