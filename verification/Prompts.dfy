/** What the enricher's prompts say of each mention: the redaction at the top of `Handle` in
  `agents/bp-enricher/handler.go`, and `buildPrompt` in `batch.go`, which takes its text from
  one map by id for the whole request. `redact` is any function. */
module Prompts {
  import opened Models

  /** The text asked about under this id: that of the last mention of the request with it. */
  function TextFor(request: seq<Mention>, redact: string -> string, id: string): string {
    if |request| == 0 then ""
    else
      var last := request[|request| - 1];
      if last.id == id then redact(last.text) else TextFor(request[..|request| - 1], redact, id)
  }

  function Asked(request: seq<Mention>, redact: string -> string, m: Mention): Mention {
    m.(text := TextFor(request, redact, m.id))
  }

  /** These mentions as the model is asked about them. */
  function AsAsked(request: seq<Mention>, redact: string -> string, part: seq<Mention>): (asked: seq<Mention>)
    ensures |asked| == |part|
    ensures forall k :: 0 <= k < |part| ==> asked[k] == Asked(request, redact, part[k])
  {
    seq(|part|, k requires 0 <= k < |part| => Asked(request, redact, part[k]))
  }

  ghost predicate HasTexts(redacted: map<string, string>, request: seq<Mention>, redact: string -> string) {
    forall id :: (if id in redacted then redacted[id] else "") == TextFor(request, redact, id)
  }

  lemma HasTextsMore(redacted: map<string, string>, request: seq<Mention>, redact: string -> string, k: nat)
    requires k < |request| && HasTexts(redacted, request[..k], redact)
    ensures HasTexts(redacted[request[k].id := redact(request[k].text)], request[..k + 1], redact)
  {
    assert request[..k + 1][..k] == request[..k];
  }

  method RedactAll(request: seq<Mention>, redact: string -> string) returns (redacted: map<string, string>)
    ensures HasTexts(redacted, request, redact)
  {
    redacted := map[];
    for k := 0 to |request|
      invariant HasTexts(redacted, request[..k], redact)
    {
      HasTextsMore(redacted, request, redact, k);
      redacted := redacted[request[k].id := redact(request[k].text)];
    }
    assert request[..|request|] == request;
  }

  method WithTexts(redacted: map<string, string>, part: seq<Mention>, ghost request: seq<Mention>, ghost redact: string -> string)
    returns (asked: seq<Mention>)
    requires HasTexts(redacted, request, redact)
    ensures asked == AsAsked(request, redact, part)
  {
    asked := [];
    for k := 0 to |part|
      invariant |asked| == k && forall l :: 0 <= l < k ==> asked[l] == Asked(request, redact, part[l])
    {
      var id := part[k].id;
      asked := asked + [part[k].(text := if id in redacted then redacted[id] else "")];
    }
  }

  // ---------------------------------------------------------------- whose text it is

  /** Mentions of a request that share an id share their redacted text. */
  ghost predicate TextsAgree(request: seq<Mention>, redact: string -> string) {
    forall i, j :: 0 <= i < |request| && 0 <= j < |request| && request[i].id == request[j].id ==>
      redact(request[i].text) == redact(request[j].text)
  }

  lemma {:induction false} TextIsSomeones(request: seq<Mention>, redact: string -> string, k: nat) returns (l: nat)
    requires k < |request|
    ensures l < |request| && request[l].id == request[k].id && TextFor(request, redact, request[k].id) == redact(request[l].text)
  {
    var last := |request| - 1;
    if request[last].id == request[k].id {
      l := last;
    } else {
      l := TextIsSomeones(request[..last], redact, k);
    }
  }

  /** Exactly when every mention of a request is judged on its own text: when mentions that
      share an id share the text. Otherwise one of them is judged on another's, even if the two
      are in different batches and are filed under their own keys. */
  lemma JudgedOnOwnTextWhen(request: seq<Mention>, redact: string -> string)
    ensures (forall k :: 0 <= k < |request| ==> TextFor(request, redact, request[k].id) == redact(request[k].text)) <==>
            TextsAgree(request, redact)
  {
    forall k | 0 <= k < |request| && TextsAgree(request, redact)
      ensures TextFor(request, redact, request[k].id) == redact(request[k].text)
    {
      var l := TextIsSomeones(request, redact, k);
    }
  }
}
