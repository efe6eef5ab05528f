/**
 * Retention of stored messages. After a message is stored, `_on_message`
 * counts the topic's messages and, when there are more than the configured
 * maximum, deletes those after the first `max` in the newest-first
 * ordering, that is, the oldest excess, by their ids.
 */
module Retention {

  import opened Models

  function IdsOf(s: seq<Message>): set<nat> {
    set m | m in s :: m.id
  }

  /** `MqttMessage.objects.filter(id__in=ids).delete()`: every other message stays, in order. */
  function RemoveIds(ms: seq<Message>, ids: set<nat>): (r: seq<Message>)
    ensures |r| <= |ms|
  {
    if ms == [] then []
    else
      var rest := RemoveIds(ms[1..], ids);
      if ms[0].id in ids then rest else [ms[0]] + rest
  }

  /** Exactly the messages whose id is not listed survive a deletion by ids. */
  lemma {:induction false} RemoveIdsMembers(ms: seq<Message>, ids: set<nat>)
    ensures forall m :: m in RemoveIds(ms, ids) <==> m in ms && m.id !in ids
  {
    if ms != [] {
      RemoveIdsMembers(ms[1..], ids);
      assert ms == [ms[0]] + ms[1..];
    }
  }

  /** Deleting messages keeps the remaining ones in increasing id and receipt order. */
  lemma {:induction false} RemoveIdsKeepsOrder(ms: seq<Message>, ids: set<nat>)
    requires IdsIncreasing(ms) && ReceivedIncreasing(ms)
    ensures IdsIncreasing(RemoveIds(ms, ids)) && ReceivedIncreasing(RemoveIds(ms, ids))
  {
    RemoveIdsKeepsIds(ms, ids);
    RemoveIdsKeepsReceived(ms, ids);
  }

  lemma {:induction false} RemoveIdsKeepsIds(ms: seq<Message>, ids: set<nat>)
    requires IdsIncreasing(ms)
    ensures IdsIncreasing(RemoveIds(ms, ids))
  {
    if ms != [] {
      RemoveIdsKeepsIds(ms[1..], ids);
      if ms[0].id !in ids {
        var rest := RemoveIds(ms[1..], ids);
        RemoveIdsMembers(ms[1..], ids);
        forall m | m in rest ensures ms[0].id < m.id {
          var j :| 0 <= j < |ms[1..]| && ms[1..][j] == m;
          assert ms[j + 1] == m;
        }
        IdsIncreasingCons(ms[0], rest);
      }
    }
  }

  lemma {:induction false} RemoveIdsKeepsReceived(ms: seq<Message>, ids: set<nat>)
    requires ReceivedIncreasing(ms)
    ensures ReceivedIncreasing(RemoveIds(ms, ids))
  {
    if ms != [] {
      RemoveIdsKeepsReceived(ms[1..], ids);
      if ms[0].id !in ids {
        var rest := RemoveIds(ms[1..], ids);
        RemoveIdsMembers(ms[1..], ids);
        forall m | m in rest ensures ms[0].receivedAt < m.receivedAt {
          var j :| 0 <= j < |ms[1..]| && ms[1..][j] == m;
          assert ms[j + 1] == m;
        }
        ReceivedIncreasingCons(ms[0], rest);
      }
    }
  }

  lemma {:induction false} RemoveNoIds(ms: seq<Message>)
    ensures RemoveIds(ms, {}) == ms
  {
    if ms != [] {
      RemoveNoIds(ms[1..]);
    }
  }

  /** Listing an id that no stored message carries changes nothing. */
  lemma {:induction false} RemoveAbsentId(ms: seq<Message>, ids: set<nat>, x: nat)
    requires forall m :: m in ms ==> m.id != x
    ensures RemoveIds(ms, ids + {x}) == RemoveIds(ms, ids)
  {
    if ms != [] {
      assert ms[0] in ms;
      RemoveAbsentId(ms[1..], ids, x);
    }
  }

  lemma {:induction false} HeadIdFresh(ms: seq<Message>)
    requires IdsIncreasing(ms) && ms != []
    ensures forall m :: m in ms[1..] ==> m.id != ms[0].id
  {
    forall m | m in ms[1..] ensures m.id != ms[0].id {
      var j :| 0 <= j < |ms[1..]| && ms[1..][j] == m;
      assert ms[j + 1] == m;
    }
  }

  /**
   * One step of deleting a topic's k oldest messages: the head goes if it is one of
   * them, and the rest of the deletion happens in the tail.
   */
  lemma {:induction false} RemoveOldestStep(ms: seq<Message>, name: string, k: nat)
    requires IdsIncreasing(ms) && ms != []
    requires 0 < k <= |Chronological(ms, name)|
    ensures var c := Chronological(ms, name);
      var rest := Chronological(ms[1..], name);
      if ms[0].topic == name then
        && c[k..] == rest[k - 1..]
        && RemoveIds(ms, IdsOf(c[..k])) == RemoveIds(ms[1..], IdsOf(rest[..k - 1]))
      else
        && c == rest
        && RemoveIds(ms, IdsOf(c[..k])) == [ms[0]] + RemoveIds(ms[1..], IdsOf(rest[..k]))
  {
    var c := Chronological(ms, name);
    var rest := Chronological(ms[1..], name);
    var ids := IdsOf(c[..k]);
    HeadIdFresh(ms);
    if ms[0].topic == name {
      var ids' := IdsOf(rest[..k - 1]);
      assert c[..k] == [ms[0]] + rest[..k - 1];
      assert ids == ids' + {ms[0].id};
      RemoveAbsentId(ms[1..], ids', ms[0].id);
      assert c[k..] == rest[k - 1..];
    } else {
      ChronologicalMembers(ms[1..], name);
      forall d | d in c[..k] ensures d.id != ms[0].id {
        assert d in rest;
      }
    }
  }

  /**
   * Deleting the ids of a topic's k oldest messages removes exactly those: the
   * topic keeps the rest of its messages in order.
   */
  lemma {:induction false} RemoveOldestOfTopic(ms: seq<Message>, name: string, k: nat)
    requires IdsIncreasing(ms)
    requires k <= |Chronological(ms, name)|
    ensures Chronological(RemoveIds(ms, IdsOf(Chronological(ms, name)[..k])), name)
         == Chronological(ms, name)[k..]
  {
    var c := Chronological(ms, name);
    if ms == [] {
    } else if k == 0 {
      assert IdsOf(c[..0]) == {};
      RemoveNoIds(ms);
    } else {
      RemoveOldestStep(ms, name, k);
      assert IdsIncreasing(ms[1..]);
      if ms[0].topic == name {
        RemoveOldestOfTopic(ms[1..], name, k - 1);
      } else {
        RemoveOldestOfTopic(ms[1..], name, k);
      }
    }
  }

  /** Deleting some of one topic's messages leaves every other topic's messages as they were. */
  lemma {:induction false} RemoveOldestSparesOthers(ms: seq<Message>, name: string, k: nat, other: string)
    requires IdsIncreasing(ms)
    requires k <= |Chronological(ms, name)|
    requires other != name
    ensures Chronological(RemoveIds(ms, IdsOf(Chronological(ms, name)[..k])), other)
         == Chronological(ms, other)
  {
    var c := Chronological(ms, name);
    if ms == [] {
    } else if k == 0 {
      assert IdsOf(c[..0]) == {};
      RemoveNoIds(ms);
    } else {
      RemoveOldestStep(ms, name, k);
      assert IdsIncreasing(ms[1..]);
      if ms[0].topic == name {
        RemoveOldestSparesOthers(ms[1..], name, k - 1, other);
      } else {
        var tail := RemoveIds(ms[1..], IdsOf(c[..k]));
        assert ([ms[0]] + tail)[1..] == tail;
        RemoveOldestSparesOthers(ms[1..], name, k, other);
      }
    }
  }

  /** What `topic.messages.all()[max:]` selects: the oldest excess, found newest first. */
  function Excess(ms: seq<Message>, name: string, max: nat): (r: seq<Message>)
    requires MessageCount(ms, name) > max
    ensures |r| == MessageCount(ms, name) - max
  {
    NewestFirst(ms, name)[max..]
  }

  /** The messages beyond the newest `max` are the topic's oldest ones, in either order. */
  lemma {:induction false} ExcessIsOldest(ms: seq<Message>, name: string, max: nat)
    requires MessageCount(ms, name) > max
    ensures var c := Chronological(ms, name);
      IdsOf(Excess(ms, name, max)) == IdsOf(c[..|c| - max])
  {
    var c := Chronological(ms, name);
    var e := Excess(ms, name, max);
    var p := c[..|c| - max];
    assert e == Reverse(p);
    ReverseSameElements(p);
  }

  /** The store after `_on_message`'s clean-up of topic `name`. */
  function Trim(ms: seq<Message>, name: string, max: nat): (r: seq<Message>)
    ensures |r| <= |ms|
  {
    if MessageCount(ms, name) > max then RemoveIds(ms, IdsOf(Excess(ms, name, max))) else ms
  }

  /** When the topic is over the limit, clean-up deletes the ids of its oldest messages beyond `max`. */
  lemma {:induction false} TrimRemovesOldest(ms: seq<Message>, name: string, max: nat)
    requires |Chronological(ms, name)| > max
    ensures var c := Chronological(ms, name);
      Trim(ms, name, max) == RemoveIds(ms, IdsOf(c[..|c| - max]))
  {
    ExcessIsOldest(ms, name, max);
  }

  /**
   * After clean-up the topic holds exactly `max` messages if it held more, and
   * these are its newest ones in order; with `max` or fewer nothing is deleted.
   */
  lemma {:induction false} TrimKeepsNewest(ms: seq<Message>, name: string, max: nat)
    requires IdsIncreasing(ms)
    ensures var c := Chronological(ms, name);
      Chronological(Trim(ms, name, max), name) == if |c| > max then c[|c| - max..] else c
  {
    var c := Chronological(ms, name);
    if |c| > max {
      TrimRemovesOldest(ms, name, max);
      RemoveOldestOfTopic(ms, name, |c| - max);
    }
  }

  /** The topic's count after clean-up is the smaller of its count and `max`; at or under `max` nothing is deleted. */
  lemma {:induction false} TrimCount(ms: seq<Message>, name: string, max: nat)
    requires IdsIncreasing(ms)
    ensures MessageCount(Trim(ms, name, max), name) == if MessageCount(ms, name) > max then max else MessageCount(ms, name)
    ensures MessageCount(ms, name) <= max ==> Trim(ms, name, max) == ms
  {
    TrimKeepsNewest(ms, name, max);
  }

  /** Clean-up of one topic never touches the messages of another. */
  lemma {:induction false} TrimSparesOtherTopics(ms: seq<Message>, name: string, max: nat, other: string)
    requires IdsIncreasing(ms)
    requires other != name
    ensures Chronological(Trim(ms, name, max), other) == Chronological(ms, other)
  {
    var c := Chronological(ms, name);
    if |c| > max {
      TrimRemovesOldest(ms, name, max);
      RemoveOldestSparesOthers(ms, name, |c| - max, other);
    }
  }

  /** Every message clean-up deleted was received before every message it kept. */
  lemma {:induction false} TrimDeletesOnlyOlder(ms: seq<Message>, name: string, max: nat, deleted: Message, kept: Message)
    requires IdsIncreasing(ms) && ReceivedIncreasing(ms)
    requires deleted in ms && deleted.topic == name && deleted !in Trim(ms, name, max)
    requires kept in Trim(ms, name, max) && kept.topic == name
    ensures deleted.receivedAt < kept.receivedAt
  {
    var c := Chronological(ms, name);
    TrimKeepsNewest(ms, name, max);
    ChronologicalKeepsOrder(ms, name);
    var t := Trim(ms, name, max);
    ChronologicalMembers(ms, name);
    ChronologicalMembers(t, name);
    assert |c| > max;
    var i :| 0 <= i < |c| && c[i] == deleted;
    assert kept in c[|c| - max..];
    var j :| |c| - max <= j < |c| && c[j] == kept;
    assert i < |c| - max;
  }

  /**
   * Receiving one message on topic `name` and cleaning up: the topic holds its
   * previous messages plus the new one, cut back to the newest `max`; so the new
   * message survives whenever `max` is positive.
   */
  lemma {:induction false} IngestThenTrim(ms: seq<Message>, m: Message, max: nat)
    requires IdsIncreasing(ms + [m])
    ensures var c := Chronological(ms, m.topic) + [m];
      Chronological(Trim(ms + [m], m.topic, max), m.topic) == if |c| > max then c[|c| - max..] else c
  {
    ChronologicalAppend(ms, m, m.topic);
    TrimKeepsNewest(ms + [m], m.topic, max);
  }

  /** The message just received always survives clean-up when the maximum is positive. */
  lemma {:induction false} IngestedMessageSurvives(ms: seq<Message>, m: Message, max: nat)
    requires IdsIncreasing(ms + [m])
    requires max > 0
    ensures m in Trim(ms + [m], m.topic, max)
  {
    var c := Chronological(ms, m.topic) + [m];
    var t := Trim(ms + [m], m.topic, max);
    IngestThenTrim(ms, m, max);
    var r := Chronological(t, m.topic);
    assert r == if |c| > max then c[|c| - max..] else c;
    assert r[|r| - 1] == m;
    ChronologicalMembers(t, m.topic);
  }
}
