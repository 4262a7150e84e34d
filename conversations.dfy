/**
 * Conversation discovery shared by the repository and the main screen:
 * which messages are direct, who the other party is, and the first-seen
 * distinct list of partners.
 */
module Conversations {
  import opened Models
  import opened Strings
  import opened Collections

  const CHANNEL_MARK := "@channel"

  /** A message with a recipient that is not a channel. */
  predicate IsDirect(m: Message) {
    m.to.Some? && !Contains(m.to.value, CHANNEL_MARK)
  }

  /** The participant of a direct message who is not `username`. */
  function OtherParty(m: Message, username: string): string
    requires m.to.Some?
  {
    if m.from == username then m.to.value else m.from
  }

  /** The messages that have a recipient which is not a channel, order kept. */
  function DirectOnly(ms: seq<Message>): (r: seq<Message>)
    ensures forall m | m in r :: IsDirect(m) && m in ms
  {
    if ms == [] then []
    else
      var last := ms[|ms| - 1];
      var front := DirectOnly(ms[..|ms| - 1]);
      assert forall m | m in ms[..|ms| - 1] :: m in ms;
      if IsDirect(last) then front + [last] else front
  }

  /** The other party of one message, if it is direct. */
  function PartyOf(m: Message, username: string): seq<string> {
    if IsDirect(m) then [OtherParty(m, username)] else []
  }

  /** The other parties of the direct messages of `ms`, in stream order, repeats kept. */
  function Partners(ms: seq<Message>, username: string): seq<string> {
    if ms == [] then [] else Partners(ms[..|ms| - 1], username) + PartyOf(ms[|ms| - 1], username)
  }

  /** `distinctBy`: the first occurrence of each name, in order. */
  function Distinct(s: seq<string>): seq<string> {
    if s == [] then []
    else
      var d := Distinct(s[..|s| - 1]);
      if s[|s| - 1] in d then d else d + [s[|s| - 1]]
  }

  /** One more direct message adds exactly its other party. */
  lemma PartnersStep(ms: seq<Message>, j: nat, username: string)
    requires j < |ms| && IsDirect(ms[j])
    ensures Partners(ms[..j + 1], username) == Partners(ms[..j], username) + [OtherParty(ms[j], username)]
  {
    assert ms[..j + 1][..j] == ms[..j];
  }

  /** One more name is kept exactly when it has not been seen. */
  lemma DistinctStep(s: seq<string>, x: string)
    ensures Distinct(s + [x]) == if x in Distinct(s) then Distinct(s) else Distinct(s) + [x]
  {
    assert (s + [x])[..|s|] == s;
  }

  /** The names of the direct chats found in a message stream. */
  function DirectChatNames(ms: seq<Message>, username: string): seq<string> {
    Distinct(Partners(ms, username))
  }

  /** The messages sent by or to `name`, order kept. */
  function Concerning(ms: seq<Message>, name: string): (r: seq<Message>)
    ensures forall m :: m in r <==> m in ms && (m.from == name || m.to == Some(name))
    ensures |r| <= |ms|
  {
    if ms == [] then []
    else
      var front := Concerning(ms[..|ms| - 1], name);
      var last := ms[|ms| - 1];
      assert forall m :: m in ms <==> m in ms[..|ms| - 1] || m == last;
      if last.from == name || last.to == Some(name) then front + [last] else front
  }

  lemma {:induction false} ConcerningAppend(a: seq<Message>, b: seq<Message>, name: string)
    ensures Concerning(a + b, name) == Concerning(a, name) + Concerning(b, name)
  {
    if b == [] {
      assert a + b == a;
    } else {
      assert (a + b)[..|a + b| - 1] == a + b[..|b| - 1];
      ConcerningAppend(a, b[..|b| - 1], name);
    }
  }

  lemma {:induction false} PartnersAppend(a: seq<Message>, b: seq<Message>, username: string)
    ensures Partners(a + b, username) == Partners(a, username) + Partners(b, username)
  {
    if b == [] {
      assert a + b == a;
    } else {
      assert (a + b)[..|a + b| - 1] == a + b[..|b| - 1];
      PartnersAppend(a, b[..|b| - 1], username);
    }
  }

  /** Filtering out indirect messages first does not change the partners found. */
  lemma {:induction false} PartnersOfDirectOnly(ms: seq<Message>, username: string)
    ensures Partners(DirectOnly(ms), username) == Partners(ms, username)
  {
    if ms != [] {
      var front := ms[..|ms| - 1];
      var last := ms[|ms| - 1];
      PartnersOfDirectOnly(front, username);
      if IsDirect(last) {
        PartnersAppend(DirectOnly(front), [last], username);
        assert Partners([last], username) == PartyOf(last, username);
      }
    }
  }

  /** A name is a partner exactly when some direct message has it as the other party. */
  lemma {:induction false} PartnersAreOtherParties(ms: seq<Message>, username: string, name: string)
    ensures name in Partners(ms, username) <==>
      exists m :: m in ms && IsDirect(m) && OtherParty(m, username) == name
  {
    if ms != [] {
      var front := ms[..|ms| - 1];
      var last := ms[|ms| - 1];
      PartnersAreOtherParties(front, username, name);
      assert forall m :: m in ms <==> m in front || m == last;
    }
  }

  /** `distinctBy` keeps exactly the names of its input. */
  lemma {:induction false} DistinctSameElements(s: seq<string>)
    ensures forall x :: x in Distinct(s) <==> x in s
  {
    if s != [] {
      DistinctSameElements(s[..|s| - 1]);
      assert forall x :: x in s <==> x in s[..|s| - 1] || x == s[|s| - 1];
    }
  }

  /** `distinctBy` yields pairwise-distinct names. */
  lemma {:induction false} DistinctHasNoDuplicates(s: seq<string>)
    ensures NoDuplicates(Distinct(s))
  {
    if s != [] {
      DistinctHasNoDuplicates(s[..|s| - 1]);
    }
  }

  /** The index of the first occurrence of `x` in `s`. */
  function FirstIndex(s: seq<string>, x: string): (i: nat)
    requires x in s
    ensures i < |s| && s[i] == x && forall j | 0 <= j < i :: s[j] != x
  {
    if s[0] == x then 0 else 1 + FirstIndex(s[1..], x)
  }

  lemma FirstIndexInPrefix(s: seq<string>, n: nat, x: string)
    requires n <= |s| && x in s[..n]
    ensures x in s && FirstIndex(s, x) == FirstIndex(s[..n], x)
  {
    var i := FirstIndex(s[..n], x);
    assert s[i] == x;
    var k := FirstIndex(s, x);
    assert k <= i;
    assert s[..n][k] == x;
  }

  /** `distinctBy` keeps first-seen order: earlier names were seen first. */
  lemma {:induction false} DistinctKeepsFirstSeenOrder(s: seq<string>, i: nat, j: nat)
    requires i < j < |Distinct(s)|
    ensures Distinct(s)[i] in s && Distinct(s)[j] in s
    ensures FirstIndex(s, Distinct(s)[i]) < FirstIndex(s, Distinct(s)[j])
  {
    var last := s[|s| - 1];
    var front := s[..|s| - 1];
    assert s == front + [last];
    DistinctStep(front, last);
    var d := Distinct(front);
    DistinctSameElements(front);
    DistinctSameElements(s);
    assert Distinct(s)[i] == d[i];
    FirstIndexInPrefix(s, |s| - 1, d[i]);
    if j < |d| {
      assert Distinct(s)[j] == d[j];
      DistinctKeepsFirstSeenOrder(front, i, j);
      FirstIndexInPrefix(s, |s| - 1, d[j]);
    } else {
      // the new name was never seen before, so it occurs first at the end
      assert Distinct(s)[j] == last && last !in front;
      assert forall k | 0 <= k < |s| - 1 :: s[k] == front[k];
    }
  }

  /**
   * The direct chats of a stream: each name once, each the other party of a
   * direct message, every such party present, in order of first appearance.
   */
  lemma DirectChatNamesLayout(ms: seq<Message>, username: string)
    ensures NoDuplicates(DirectChatNames(ms, username))
    ensures forall name | name in DirectChatNames(ms, username) ::
      exists m :: m in ms && IsDirect(m) && OtherParty(m, username) == name
    ensures forall m | m in ms && IsDirect(m) :: OtherParty(m, username) in DirectChatNames(ms, username)
    ensures forall i, j | 0 <= i < j < |DirectChatNames(ms, username)| ::
      && DirectChatNames(ms, username)[i] in Partners(ms, username)
      && DirectChatNames(ms, username)[j] in Partners(ms, username)
      && FirstIndex(Partners(ms, username), DirectChatNames(ms, username)[i])
         < FirstIndex(Partners(ms, username), DirectChatNames(ms, username)[j])
  {
    var names := DirectChatNames(ms, username);
    DistinctHasNoDuplicates(Partners(ms, username));
    DistinctSameElements(Partners(ms, username));
    forall name | name in names
      ensures exists m :: m in ms && IsDirect(m) && OtherParty(m, username) == name
    {
      PartnersAreOtherParties(ms, username, name);
    }
    forall m | m in ms && IsDirect(m)
      ensures OtherParty(m, username) in names
    {
      PartnersAreOtherParties(ms, username, OtherParty(m, username));
    }
    forall i, j | 0 <= i < j < |names|
      ensures names[i] in Partners(ms, username) && names[j] in Partners(ms, username)
      ensures FirstIndex(Partners(ms, username), names[i]) < FirstIndex(Partners(ms, username), names[j])
    {
      DistinctKeepsFirstSeenOrder(Partners(ms, username), i, j);
    }
  }
}
