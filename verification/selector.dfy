/**
 The rule-based reply selector (`generate_bot_response`), written once and
 parameterised by the trigger table and the three reply templates, so that
 both variants of the source are instances of it.

 The decision list, in order:
   1. normalise the message (`lower()`, then `strip()`);
   2. a trigger equal to the normalised message gives its reply;
   3. otherwise the first trigger, in table order, occurring anywhere in the
      normalised message gives its reply;
   4. otherwise a normalised message starting with an interrogative word
      gets the question template around the original message;
   5. otherwise a message of more than five words gets the long template
      around the first fifty characters of the original message;
   6. otherwise the default template echoes the original message.
 */
module Selector {
  import opened Wrappers
  import opened Text

  /** Trigger phrase and canned reply, in declaration order (Python dict order). */
  type Table = seq<(string, string)>

  /** Fixed text around the part of the user's message a reply quotes. */
  datatype Template = Template(before: string, after: string) {

    function Fill(quoted: string): (r: string)
      ensures |r| == |before| + |quoted| + |after|
      ensures IsPrefix(before, r)
      ensures r[|before|..|before| + |quoted|] == quoted
      ensures r[|before| + |quoted|..] == after
    {
      before + quoted + after
    }
  }

  datatype Persona = Persona(table: Table, question: Template, long: Template, fallback: Template)

  /** The prefixes passed to `startswith` in step 4. */
  const Interrogatives: seq<string> := ["what", "how", "why", "when", "where", "who"]

  /** Step 5 fires for strictly more words than this. */
  const LongWordCount: nat := 5

  /** Step 5 quotes this many leading characters of the original message. */
  const SnippetLength: nat := 50

  /** `user_message.lower().strip()`. */
  function Normalize(message: string): (text: string)
    ensures Trimmed(text)
    ensures text == [] <==> AllSpace(message)
  {
    LowerKeepsSpaces(message);
    Strip(Lower(message))
  }

  /**
   What `Normalize` does to a message: the lowered message is whitespace,
   then the normalised text, then whitespace, and that text has no ASCII
   capital left. With `StripUnique` this pins the result as the lowered
   message with its whitespace ends removed.
   */
  lemma NormalizeLowersThenStrips(message: string) returns (front: string, back: string)
    ensures AllSpace(front) && AllSpace(back)
    ensures Lower(message) == front + Normalize(message) + back
    ensures forall i :: 0 <= i < |Normalize(message)| ==> !('A' <= Normalize(message)[i] <= 'Z')
  {
    var low := Lower(message);
    var text := Strip(low);
    LowerIdempotent(message);
    front, back := StripDecomposes(low);
    forall i | 0 <= i < |text| ensures !('A' <= text[i] <= 'Z') {
      assert text[i] == (front + text + back)[|front| + i];
    }
  }

  /**
   Normalising is idempotent: what `strip()` keeps of a lowered message
   has no capital left to lower and no whitespace left at its ends.
   */
  lemma NormalizeIdempotent(message: string)
    ensures Normalize(Normalize(message)) == Normalize(message)
  {
    var low := Lower(message);
    var text := Strip(low);
    var front, back := StripDecomposes(low);
    forall i | 0 <= i < |text| ensures LowerChar(text[i]) == text[i] {
      assert text[i] == (front + text + back)[|front| + i];
    }
    assert Lower(text) == text;
    StripIdempotent(low);
  }

  // ---------------------------------------------------------------------
  // The two table scans
  // ---------------------------------------------------------------------

  /** Some trigger of `table` is exactly `key` (Python `key in responses`). */
  ghost predicate HasKey(table: Table, key: string) {
    exists i :: 0 <= i < |table| && table[i].0 == key
  }

  /** Entry `i` is the first one whose trigger is exactly `key`. */
  ghost predicate FirstExact(table: Table, key: string, i: int) {
    && 0 <= i < |table|
    && table[i].0 == key
    && forall j :: 0 <= j < i ==> table[j].0 != key
  }

  /** Some trigger of `table` occurs in `text`. */
  ghost predicate Triggered(table: Table, text: string) {
    exists i :: 0 <= i < |table| && Contains(text, table[i].0)
  }

  /** Entry `i` is the first one whose trigger occurs in `text`. */
  ghost predicate FirstTriggered(table: Table, text: string, i: int) {
    && 0 <= i < |table|
    && Contains(text, table[i].0)
    && forall j :: 0 <= j < i ==> !Contains(text, table[j].0)
  }

  /** Every trigger differs from every other (true of a Python dict). */
  ghost predicate DistinctKeys(table: Table) {
    forall i, j :: 0 <= i < j < |table| ==> table[i].0 != table[j].0
  }

  /** Index of the first entry whose trigger equals `key`. */
  function ExactIndex(table: Table, key: string): (r: Option<nat>)
    ensures r.Some? ==> FirstExact(table, key, r.value)
    ensures r.None? <==> !HasKey(table, key)
  {
    if table == [] then None
    else if table[0].0 == key then Some(0)
    else
      match ExactIndex(table[1..], key)
      case None => None
      case Some(i) => Some(i + 1)
  }

  /** Index of the first entry whose trigger occurs in `text`. */
  function PartialIndex(table: Table, text: string): (r: Option<nat>)
    ensures r.Some? ==> FirstTriggered(table, text, r.value)
    ensures r.None? <==> !Triggered(table, text)
  {
    if table == [] then None
    else if Contains(text, table[0].0) then Some(0)
    else
      match PartialIndex(table[1..], text)
      case None => None
      case Some(i) => Some(i + 1)
  }

  // ---------------------------------------------------------------------
  // The selector
  // ---------------------------------------------------------------------

  /** The reply of `persona` to `message`, branch by branch. */
  function Respond(persona: Persona, message: string): (reply: string)
    ensures forall i :: FirstExact(persona.table, Normalize(message), i) ==>
              reply == persona.table[i].1
    ensures !HasKey(persona.table, Normalize(message)) ==>
              forall i :: FirstTriggered(persona.table, Normalize(message), i) ==>
                reply == persona.table[i].1
    ensures !HasKey(persona.table, Normalize(message))
            && !Triggered(persona.table, Normalize(message))
            && StartsWithAny(Normalize(message), Interrogatives) ==>
              reply == persona.question.Fill(message)
    ensures !HasKey(persona.table, Normalize(message))
            && !Triggered(persona.table, Normalize(message))
            && !StartsWithAny(Normalize(message), Interrogatives)
            && |Split(message)| > LongWordCount ==>
              reply == persona.long.Fill(Take(message, SnippetLength))
    ensures !HasKey(persona.table, Normalize(message))
            && !Triggered(persona.table, Normalize(message))
            && !StartsWithAny(Normalize(message), Interrogatives)
            && |Split(message)| <= LongWordCount ==>
              reply == persona.fallback.Fill(message)
  {
    var text := Normalize(message);
    match ExactIndex(persona.table, text)
    case Some(i) => persona.table[i].1
    case None =>
      match PartialIndex(persona.table, text)
      case Some(i) => persona.table[i].1
      case None =>
        if StartsWithAny(text, Interrogatives) then persona.question.Fill(message)
        else if |Split(message)| > LongWordCount then persona.long.Fill(Take(message, SnippetLength))
        else persona.fallback.Fill(message)
  }

  // ---------------------------------------------------------------------
  // Properties of the selector
  // ---------------------------------------------------------------------

  /**
   With distinct triggers, a message whose normal form is a trigger gets
   that trigger's reply, wherever the trigger sits in the table.
   */
  lemma ExactMatchReply(persona: Persona, message: string, i: nat)
    requires DistinctKeys(persona.table)
    requires i < |persona.table| && persona.table[i].0 == Normalize(message)
    ensures Respond(persona, message) == persona.table[i].1
  {
    assert FirstExact(persona.table, Normalize(message), i);
  }

  /**
   An exact match wins over any trigger that occurs in the message, even
   one declared earlier in the table.
   */
  lemma ExactBeatsPartial(persona: Persona, message: string, i: nat, j: nat)
    requires DistinctKeys(persona.table)
    requires j < i < |persona.table|
    requires persona.table[i].0 == Normalize(message)
    requires Contains(Normalize(message), persona.table[j].0)
    ensures Respond(persona, message) == persona.table[i].1
  {
    ExactMatchReply(persona, message, i);
  }

  /**
   The interrogative check comes before the word count: a question with
   any number of words, matching no trigger, gets the question template.
   */
  lemma QuestionBeatsLong(persona: Persona, message: string)
    requires !Triggered(persona.table, Normalize(message))
    requires StartsWithAny(Normalize(message), Interrogatives)
    ensures Respond(persona, message) == persona.question.Fill(message)
  {
    var text := Normalize(message);
    ContainsItself(text);
    assert !HasKey(persona.table, text);
  }

  lemma ContainsItself(s: string)
    ensures Contains(s, s)
  {
    assert OccursAt(s, s, 0);
  }

  /**
   A trigger that contains an earlier trigger is never selected by the
   substring scan: wherever it occurs, the earlier one occurs too.
   */
  lemma ShadowedTriggerNeverFirst(table: Table, text: string, i: nat, j: nat)
    requires i < j < |table|
    requires Contains(table[j].0, table[i].0)
    ensures !FirstTriggered(table, text, j)
  {
    if Contains(text, table[j].0) {
      ContainsTransitive(text, table[j].0, table[i].0);
    }
  }

  // ---------------------------------------------------------------------
  // Tables built by concatenation: the scans meet the front part first
  // ---------------------------------------------------------------------

  /** No trigger of `a` is a trigger of `b`. */
  ghost predicate KeysDisjoint(a: Table, b: Table) {
    forall i, j :: 0 <= i < |a| && 0 <= j < |b| ==> a[i].0 != b[j].0
  }

  lemma DistinctKeysAppend(front: Table, back: Table)
    requires DistinctKeys(front) && DistinctKeys(back) && KeysDisjoint(front, back)
    ensures DistinctKeys(front + back)
  {
    var t := front + back;
    forall i, j | 0 <= i < j < |t| ensures t[i].0 != t[j].0 {
      if j < |front| {
        assert t[i] == front[i] && t[j] == front[j];
      } else if i < |front| {
        assert t[i] == front[i] && t[j] == back[j - |front|];
      } else {
        assert t[i] == back[i - |front|] && t[j] == back[j - |front|];
      }
    }
  }

  lemma KeysDisjointAppend(a: Table, b: Table, c: Table)
    requires KeysDisjoint(a, c) && KeysDisjoint(b, c)
    ensures KeysDisjoint(a + b, c)
  {
    forall i, j | 0 <= i < |a + b| && 0 <= j < |c| ensures (a + b)[i].0 != c[j].0 {
      if i < |a| { assert (a + b)[i] == a[i]; } else { assert (a + b)[i] == b[i - |a|]; }
    }
  }

  lemma ExactScanAppend(front: Table, back: Table, key: string)
    ensures HasKey(front + back, key) <==> HasKey(front, key) || HasKey(back, key)
    ensures forall i :: FirstExact(front, key, i) ==> FirstExact(front + back, key, i)
    ensures !HasKey(front, key) ==>
              forall i :: FirstExact(back, key, i) ==> FirstExact(front + back, key, |front| + i)
  {
    var t := front + back;
    assert forall i :: 0 <= i < |front| ==> t[i] == front[i];
    assert forall i :: 0 <= i < |back| ==> t[|front| + i] == back[i];
    if HasKey(t, key) {
      var i :| 0 <= i < |t| && t[i].0 == key;
      if i >= |front| { assert back[i - |front|] == t[i]; }
    }
  }

  lemma PartialScanAppend(front: Table, back: Table, text: string)
    ensures Triggered(front + back, text) <==> Triggered(front, text) || Triggered(back, text)
    ensures forall i :: FirstTriggered(front, text, i) ==> FirstTriggered(front + back, text, i)
    ensures !Triggered(front, text) ==>
              forall i :: FirstTriggered(back, text, i) ==> FirstTriggered(front + back, text, |front| + i)
  {
    var t := front + back;
    assert forall i :: 0 <= i < |front| ==> t[i] == front[i];
    assert forall i :: 0 <= i < |back| ==> t[|front| + i] == back[i];
    if Triggered(t, text) {
      var i :| 0 <= i < |t| && Contains(text, t[i].0);
      if i >= |front| { assert back[i - |front|] == t[i]; }
    }
  }

  /** Every canned reply of `table` carries some text. */
  ghost predicate RepliesNonblank(table: Table) {
    forall i :: 0 <= i < |table| ==> table[i].1 != []
  }

  lemma RepliesNonblankAppend(front: Table, back: Table)
    requires RepliesNonblank(front) && RepliesNonblank(back)
    ensures RepliesNonblank(front + back)
  {
    assert forall i :: |front| <= i < |front + back| ==> (front + back)[i] == back[i - |front|];
  }

  /** Every canned reply and every template carries some text. */
  ghost predicate Nonblank(persona: Persona) {
    && RepliesNonblank(persona.table)
    && persona.question.before != []
    && persona.long.before != []
    && persona.fallback.before != []
  }

  /** The selector is total and never answers with the empty string. */
  lemma ReplyNonEmpty(persona: Persona, message: string)
    requires Nonblank(persona)
    ensures Respond(persona, message) != []
  {
  }

  /** No trigger is the empty string. */
  ghost predicate NonEmptyKeys(table: Table) {
    forall i :: 0 <= i < |table| ==> table[i].0 != []
  }

  /**
   The empty message matches no trigger, is no question and has no words,
   so it gets the default template around the empty string.
   */
  lemma EmptyMessageFallsThrough(persona: Persona)
    requires NonEmptyKeys(persona.table)
    ensures Respond(persona, "") == persona.fallback.Fill("")
  {
    EmptyNormal();
    EmptyTriggersNothing(persona.table);
    EmptyIsNoQuestion();
    assert !HasKey(persona.table, "");
    assert |Split("")| == 0;
  }

  lemma EmptyNormal()
    ensures Normalize("") == ""
  {
    assert Lower("") == "";
    assert AllSpace("");
  }

  lemma EmptyTriggersNothing(table: Table)
    requires NonEmptyKeys(table)
    ensures !Triggered(table, "")
  {
    forall i | 0 <= i < |table| ensures !Contains("", table[i].0) {
      assert !OccursAt(table[i].0, "", 0);
    }
  }

  lemma EmptyIsNoQuestion()
    ensures !StartsWithAny("", Interrogatives)
  {
    forall k | 0 <= k < |Interrogatives| ensures !IsPrefix(Interrogatives[k], "") {
    }
  }

  /** Every reply is a canned reply or one of the three templates, filled. */
  lemma ReplyShapes(persona: Persona, message: string)
    ensures var reply := Respond(persona, message);
            || (exists i :: 0 <= i < |persona.table| && reply == persona.table[i].1)
            || reply == persona.question.Fill(message)
            || reply == persona.long.Fill(Take(message, SnippetLength))
            || reply == persona.fallback.Fill(message)
  {
    var text := Normalize(message);
    match ExactIndex(persona.table, text)
    case Some(i) =>
    case None =>
      match PartialIndex(persona.table, text)
      case Some(i) =>
      case None =>
  }
}
