/** `LLMHandler`: the language model itself is an oracle here. What the
    handler adds around it is the prompt, the removal of role prefixes from
    the reply, and the conversion of every failure into an apology. */
module LlmHandler {
  import opened Outcomes
  import opened Strings

  /** What the chain returns: normally a string; anything else is handed back
      as `str(response)` untouched. */
  datatype Reply = TextReply(text: string) | ObjectReply(rendered: string)

  /** The model, fed the filled-in prompt: a reply, or an exception. */
  type Backend = string -> Outcome<Reply>

  /** The role markers removed from a reply, in the order they are tried. */
  const Prefixes: seq<string> := ["Answer:", "A:", "AI:", "Response:"]

  const Apology := "Sorry, I couldn't answer your question right now."

  /** The prompt template with `context` and `question` filled in. */
  function Prompt(context: string, question: string): string {
    "\nYou are a helpful assistant analyzing computer usage logs.\n"
    + "Answer clearly and concisely in English based on the data below.\n\n\n"
    + context
    + "\n\n\nRespond to the user's question below with a short, direct answer only.\n\n\n"
    + "Question: " + question + "\n\n"
  }

  predicate IsSlice(r: string, s: string) {
    exists i, j :: 0 <= i <= j <= |s| && r == s[i..j]
  }

  lemma SliceOfSlice(r: string, t: string, s: string)
    requires IsSlice(r, t) && IsSlice(t, s)
    ensures IsSlice(r, s)
  {
    var i, j :| 0 <= i <= j <= |t| && r == t[i..j];
    var a, b :| 0 <= a <= b <= |s| && t == s[a..b];
    SliceCompose(s, a, b, i, j);
    assert r == s[a + i..a + j];
  }

  lemma SliceCompose(s: string, a: nat, b: nat, i: nat, j: nat)
    requires a <= b <= |s| && i <= j <= b - a
    ensures s[a..b][i..j] == s[a + i..a + j]
  {
    forall m | 0 <= m < j - i ensures s[a..b][i..j][m] == s[a + i..a + j][m] {
      assert s[a..b][i + m] == s[a + i + m];
    }
  }

  lemma StripSlice(s: string)
    ensures IsSlice(Strip(s), s)
  {
    var i, j :| 0 <= i <= j <= |s| && Strip(s) == s[i..j];
  }

  lemma SuffixSlice(s: string, n: nat)
    requires n <= |s|
    ensures IsSlice(s[|s| - n..], s)
  {
    assert s[|s| - n..] == s[|s| - n..|s|];
  }

  lemma StripAfterLast(response: string, p: string)
    requires |p| > 0
    ensures IsSlice(Strip(AfterLast(response, p)), response)
    ensures !Contains(Strip(AfterLast(response, p)), p)
  {
    var tail := AfterLast(response, p);
    StripSlice(tail);
    SuffixSlice(response, |tail|);
    SliceOfSlice(Strip(tail), tail, response);
    var i, j :| 0 <= i <= j <= |tail| && Strip(tail) == tail[i..j];
    NotContainsSlice(tail, p, i, j);
  }

  lemma WholeSlice(s: string)
    ensures IsSlice(s, s)
  {
    assert s == s[0..|s|];
  }

  /** One step of the loop: when `p` occurs, keep what follows its last
      occurrence, stripped. */
  function DropPrefix(response: string, p: string): (r: string)
    requires |p| > 0
    ensures IsSlice(r, response)
    ensures Contains(response, p) ==> !Contains(r, p) && Trimmed(r)
    ensures Contains(response, p) ==> r == Strip(AfterLast(response, p))
    ensures !Contains(response, p) ==> r == response
  {
    if Contains(response, p) then
      StripAfterLast(response, p);
      Strip(AfterLast(response, p))
    else
      WholeSlice(response);
      response
  }

  /** The prefix loop over `ps`, in order. */
  function DropPrefixes(response: string, ps: seq<string>): (r: string)
    requires forall k :: 0 <= k < |ps| ==> |ps[k]| > 0
    ensures IsSlice(r, response)
    decreases |ps|
  {
    if |ps| == 0 then
      WholeSlice(response);
      response
    else
      var t := DropPrefix(response, ps[0]);
      var r := DropPrefixes(t, ps[1..]);
      SliceOfSlice(r, t, response);
      r
  }

  /** The loop takes the markers in list order: one more marker at the end
      of the list is one more step after all the others. */
  lemma {:induction false} DropPrefixesInOrder(response: string, ps: seq<string>, p: string)
    requires forall k :: 0 <= k < |ps| ==> |ps[k]| > 0
    requires |p| > 0
    ensures DropPrefixes(response, ps + [p]) == DropPrefix(DropPrefixes(response, ps), p)
    decreases |ps|
  {
    if |ps| == 0 {
      assert [] + [p] == [p];
      assert [p][1..] == [];
    } else {
      assert (ps + [p])[0] == ps[0];
      assert (ps + [p])[1..] == ps[1..] + [p];
      DropPrefixesInOrder(DropPrefix(response, ps[0]), ps[1..], p);
    }
  }

  /** None of the role prefixes survives, whatever the reply held. */
  lemma {:induction false} NoPrefixLeft(response: string, ps: seq<string>)
    requires forall k :: 0 <= k < |ps| ==> |ps[k]| > 0
    ensures forall k :: 0 <= k < |ps| ==> !Contains(DropPrefixes(response, ps), ps[k])
    decreases |ps|
  {
    if |ps| > 0 {
      var t := DropPrefix(response, ps[0]);
      var r := DropPrefixes(t, ps[1..]);
      NoPrefixLeft(t, ps[1..]);
      StaysAbsent(t, ps[0], ps[1..]);
      forall k | 1 <= k < |ps| ensures !Contains(r, ps[k]) {
        assert ps[1..][k - 1] == ps[k];
      }
    }
  }

  /** A marker the text lacks stays absent through the rest of the loop. */
  lemma StaysAbsent(t: string, p: string, ps: seq<string>)
    requires forall k :: 0 <= k < |ps| ==> |ps[k]| > 0
    requires !Contains(t, p)
    ensures !Contains(DropPrefixes(t, ps), p)
  {
    var r := DropPrefixes(t, ps);
    var i, j :| 0 <= i <= j <= |t| && r == t[i..j];
    NotContainsSlice(t, p, i, j);
  }

  /** When no prefix occurs the loop leaves the reply alone. */
  lemma {:induction false} NoPrefixUntouched(response: string, ps: seq<string>)
    requires forall k :: 0 <= k < |ps| ==> |ps[k]| > 0
    requires forall k :: 0 <= k < |ps| ==> !Contains(response, ps[k])
    ensures DropPrefixes(response, ps) == response
    decreases |ps|
  {
    if |ps| > 0 {
      NoPrefixUntouched(response, ps[1..]);
    }
  }

  lemma CleanFacts(response: string, ps: seq<string>)
    requires forall k :: 0 <= k < |ps| ==> |ps[k]| > 0
    ensures Trimmed(Strip(DropPrefixes(response, ps)))
    ensures forall k :: 0 <= k < |ps| ==> !Contains(Strip(DropPrefixes(response, ps)), ps[k])
    ensures (forall k :: 0 <= k < |ps| ==> !Contains(response, ps[k])) ==>
      Strip(DropPrefixes(response, ps)) == Strip(response)
  {
    var t := DropPrefixes(response, ps);
    NoPrefixLeft(response, ps);
    if forall k :: 0 <= k < |ps| ==> !Contains(response, ps[k]) {
      NoPrefixUntouched(response, ps);
    }
    var r := Strip(t);
    var i, j :| 0 <= i <= j <= |t| && r == t[i..j];
    forall k | 0 <= k < |ps| ensures !Contains(r, ps[k]) {
      NotContainsSlice(t, ps[k], i, j);
    }
  }

  /** The text handed back for a string reply: prefixes dropped, then
      stripped. */
  function CleanReply(response: string): (r: string)
    ensures Trimmed(r)
    ensures forall k :: 0 <= k < |Prefixes| ==> !Contains(r, Prefixes[k])
    ensures (forall k :: 0 <= k < |Prefixes| ==> !Contains(response, Prefixes[k])) ==> r == Strip(response)
  {
    CleanFacts(response, Prefixes);
    Strip(DropPrefixes(response, Prefixes))
  }

  /** The cleaned reply is the four steps of the loop, "Answer:" first and
      "Response:" last, followed by a final strip. */
  lemma CleanReplySteps(response: string)
    ensures CleanReply(response)
         == Strip(DropPrefix(DropPrefix(DropPrefix(DropPrefix(response, "Answer:"), "A:"), "AI:"), "Response:"))
  {
    var p0, p1, p2, p3 := "Answer:", "A:", "AI:", "Response:";
    assert Prefixes == [p0] + [p1] + [p2] + [p3];
    DropPrefixesInOrder(response, [], p0);
    DropPrefixesInOrder(response, [p0], p1);
    DropPrefixesInOrder(response, [p0] + [p1], p2);
    DropPrefixesInOrder(response, [p0] + [p1] + [p2], p3);
  }

  /** What the handler makes of the model's outcome: a failure becomes the
      apology, a string reply is cleaned, any other reply is returned as
      rendered. */
  function HandleReply(reply: Outcome<Reply>): (r: string)
    ensures reply.Raised? ==> r == Apology
    ensures reply.Returned? && reply.value.TextReply? ==>
      r == CleanReply(reply.value.text) && Trimmed(r) && (forall k :: 0 <= k < |Prefixes| ==> !Contains(r, Prefixes[k]))
    ensures reply.Returned? && reply.value.ObjectReply? ==> r == reply.value.rendered
  {
    match reply
    case Raised => Apology
    case Returned(TextReply(t)) => CleanReply(t)
    case Returned(ObjectReply(s)) => s
  }

  /** `generate_response(context, question)`: never raises. */
  function GenerateResponse(backend: Backend, context: string, question: string): (r: string)
    ensures var reply := backend(Prompt(context, question));
      && (reply.Raised? ==> r == Apology)
      && (reply.Returned? && reply.value.TextReply? ==>
            r == CleanReply(reply.value.text) && Trimmed(r) && (forall k :: 0 <= k < |Prefixes| ==> !Contains(r, Prefixes[k])))
      && (reply.Returned? && reply.value.ObjectReply? ==> r == reply.value.rendered)
  {
    HandleReply(backend(Prompt(context, question)))
  }

  /** `generate_simple_response(prompt)`: the prompt goes in as the question,
      with an empty context. */
  function GenerateSimpleResponse(backend: Backend, prompt: string): (r: string)
    ensures r == GenerateResponse(backend, "", prompt)
    ensures backend(Prompt("", prompt)).Raised? ==> r == Apology
  {
    GenerateResponse(backend, "", prompt)
  }
}
