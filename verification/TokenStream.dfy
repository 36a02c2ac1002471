/** `OpenRouterLLM.stream_generate` (rag/llm_wrapper.py): the model's deltas are
    regrouped into pieces of `chunk_size` characters. */
module TokenStream {
  import opened Prelude

  /** A delta of the provider stream: absent (no choice, no delta) or some text, possibly "". */
  type Delta = Option<string>

  function Text(d: Delta): string {
    match d
    case None => ""
    case Some(t) => t
  }

  /** All the text the model sent. */
  function AllText(deltas: seq<Delta>): string {
    if deltas == [] then "" else Text(deltas[0]) + AllText(deltas[1..])
  }

  lemma {:induction false} AllTextSnoc(deltas: seq<Delta>, d: Delta)
    ensures AllText(deltas + [d]) == AllText(deltas) + Text(d)
  {
    if deltas != [] {
      assert (deltas + [d])[1..] == deltas[1..] + [d];
      AllTextSnoc(deltas[1..], d);
    }
  }

  lemma AllTextStep(deltas: seq<Delta>, i: nat)
    requires i < |deltas|
    ensures AllText(deltas[..i + 1]) == AllText(deltas[..i]) + Text(deltas[i])
  {
    assert deltas[..i + 1] == deltas[..i] + [deltas[i]];
    AllTextSnoc(deltas[..i], deltas[i]);
  }

  /** No delta carries any text. */
  predicate Silent(deltas: seq<Delta>) {
    forall d :: d in deltas ==> Text(d) == ""
  }

  /** One more delta at the end of the buffer. */
  lemma Received(deltas: seq<Delta>, i: nat, yielded: seq<string>, buffer: string)
    requires i < |deltas| && Flatten(yielded) + buffer == AllText(deltas[..i])
    ensures Flatten(yielded) + (buffer + Text(deltas[i])) == AllText(deltas[..i + 1])
    ensures Text(deltas[i]) == "" ==> AllText(deltas[..i + 1]) == AllText(deltas[..i])
    ensures Text(deltas[i]) != "" ==> AllText(deltas[..i + 1]) != ""
  {
    AllTextStep(deltas, i);
    Assoc(Flatten(yielded), buffer, Text(deltas[i]));
  }

  lemma {:induction false} AllTextEmpty(deltas: seq<Delta>)
    ensures AllText(deltas) == "" <==> Silent(deltas)
  {
    if deltas != [] {
      AllTextEmpty(deltas[1..]);
      assert forall d :: d in deltas <==> d == deltas[0] || d in deltas[1..];
    }
  }

  /** The grouping every reader sees: full groups, then a shorter non-empty rest. */
  function Groups(text: string, size: nat): seq<string>
    requires size > 0
  {
    if |text| == 0 then []
    else if |text| < size then [text]
    else [text[..size]] + Groups(text[size..], size)
  }

  lemma {:induction false} GroupsLoseNothing(text: string, size: nat)
    requires size > 0
    ensures Flatten(Groups(text, size)) == text
    ensures forall i :: 0 <= i < |Groups(text, size)| ==>
      0 < |Groups(text, size)[i]| <= size
      && (i < |Groups(text, size)| - 1 ==> |Groups(text, size)[i]| == size)
    ensures Groups(text, size) == [] <==> text == ""
  {
    if |text| == 0 {
    } else if |text| < size {
      assert Flatten([text]) == text + Flatten([]);
    } else {
      var rest := Groups(text[size..], size);
      GroupsLoseNothing(text[size..], size);
      assert Groups(text, size)[1..] == rest;
      assert text[..size] + text[size..] == text;
    }
  }

  /** Any sequence of groups with these shapes is the grouping: the specification has one solution. */
  lemma {:induction false} GroupsUnique(parts: seq<string>, size: nat)
    requires size > 0
    requires forall i :: 0 <= i < |parts| ==>
      0 < |parts[i]| <= size && (i < |parts| - 1 ==> |parts[i]| == size)
    ensures Groups(Flatten(parts), size) == parts
  {
    if parts != [] {
      GroupsUnique(parts[1..], size);
      var t := Flatten(parts);
      assert t == parts[0] + Flatten(parts[1..]);
      if |parts| == 1 {
        assert Flatten(parts[1..]) == [];
        assert t == parts[0];
        if |t| == size {
          assert t[..size] == t && t[size..] == "";
        }
      } else {
        assert t[..size] == parts[0];
        assert t[size..] == Flatten(parts[1..]);
      }
    }
  }

  /** Moving one full group from the buffer to the output changes no text. */
  lemma MoveGroup(yielded: seq<string>, buffer: string, size: nat)
    requires size <= |buffer|
    ensures Flatten(yielded + [buffer[..size]]) + buffer[size..] == Flatten(yielded) + buffer
  {
    FlattenSnoc(yielded, buffer[..size]);
    assert buffer[..size] + buffer[size..] == buffer;
  }

  predicate AllFull(parts: seq<string>, size: nat) {
    forall k :: 0 <= k < |parts| ==> |parts[k]| == size
  }

  /** Full groups plus the flushed buffer are exactly the grouping of the text. */
  lemma Flush(yielded: seq<string>, buffer: string, text: string, size: nat)
    requires |buffer| < size && AllFull(yielded, size)
    requires Flatten(yielded) + buffer == text
    ensures (if buffer == "" then yielded else yielded + [buffer]) == Groups(text, size)
    ensures Flatten(Groups(text, size)) == text
    ensures Groups(text, size) == [] <==> text == ""
  {
    GroupsLoseNothing(text, size);
    if buffer == "" {
      assert Flatten(yielded) == text;
      GroupsUnique(yielded, size);
    } else {
      FlattenSnoc(yielded, buffer);
      GroupsUnique(yielded + [buffer], size);
    }
  }

  /** What has been yielded when the provider fails in mid-stream: the full groups only. */
  function FullGroups(text: string, size: nat): seq<string>
    requires size > 0
  {
    if |text| < size then [] else [text[..size]] + FullGroups(text[size..], size)
  }

  lemma {:induction false} FullGroupsUnique(parts: seq<string>, rest: string, size: nat)
    requires |rest| < size && AllFull(parts, size)
    ensures FullGroups(Flatten(parts) + rest, size) == parts
  {
    var t := Flatten(parts) + rest;
    if parts == [] {
      assert t == rest;
    } else {
      var more := Flatten(parts[1..]) + rest;
      assert t == parts[0] + more;
      assert t[..size] == parts[0] && t[size..] == more;
      FullGroupsUnique(parts[1..], rest, size);
    }
  }

  /** A failed stream has delivered a prefix of the model's text and holds back less than one group. */
  lemma {:induction false} FullGroupsArePrefix(text: string, size: nat)
    requires size > 0
    ensures var shown := Flatten(FullGroups(text, size));
      shown <= text && |text| - |shown| < size
  {
    if |text| >= size {
      FullGroupsArePrefix(text[size..], size);
      assert text == text[..size] + text[size..];
      assert FullGroups(text, size)[1..] == FullGroups(text[size..], size);
    }
  }

  datatype Ending = Finished | EmptyResponse | Broken

  /** `yielded` collects what the generator yields. EmptyResponse is the RuntimeError raised
      after the loop when no non-empty delta arrived; Broken is an exception of the provider
      after the given deltas, which leaves the buffer unflushed. */
  method StreamGenerate(deltas: seq<Delta>, size: nat, broken: bool) returns (yielded: seq<string>, ending: Ending)
    requires size > 0
    ensures broken ==> ending == Broken && yielded == FullGroups(AllText(deltas), size)
    ensures !broken ==> yielded == Groups(AllText(deltas), size) && Flatten(yielded) == AllText(deltas)
    ensures !broken ==> ending == if Silent(deltas) then EmptyResponse else Finished
    ensures ending == EmptyResponse ==> yielded == []
  {
    var buffer := "";
    var emitted := false;
    yielded := [];
    for i := 0 to |deltas|
      invariant AllFull(yielded, size) && |buffer| < size
      invariant Flatten(yielded) + buffer == AllText(deltas[..i])
      invariant emitted <==> AllText(deltas[..i]) != ""
    {
      Received(deltas, i, yielded, buffer);
      if deltas[i] == None || deltas[i] == Some("") {
        continue;
      }
      emitted := true;
      buffer := buffer + deltas[i].value;
      ghost var received := AllText(deltas[..i + 1]);
      while |buffer| >= size
        invariant AllFull(yielded, size) && Flatten(yielded) + buffer == received
        decreases |buffer|
      {
        MoveGroup(yielded, buffer, size);
        yielded := yielded + [buffer[..size]];
        buffer := buffer[size..];
      }
    }
    assert deltas[..|deltas|] == deltas;
    if broken {
      FullGroupsUnique(yielded, buffer, size);
      return yielded, Broken;
    }
    Flush(yielded, buffer, AllText(deltas), size);
    AllTextEmpty(deltas);
    if buffer != "" {
      yielded := yielded + [buffer];
    }
    ending := if emitted then Finished else EmptyResponse;
  }
}
