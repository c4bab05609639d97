/** Session pinning: the key of a conversation, and the pin that only ever moves up. */
module Session {
  import opened Common

  datatype Tier = Free | Simple | Mid | Complex | Reasoning | Other(name: string)

  function Rank(t: Tier): nat {
    match t
    case Free => 0
    case Simple => 1
    case Mid => 2
    case Complex => 3
    case Reasoning => 4
    case Other(_) => 0
  }

  /** The named tiers ascend, and any other name counts as the lowest. */
  lemma RanksAscend(i: nat, j: nat, name: string)
    requires i < 5 && j < 5
    ensures var ladder := [Free, Simple, Mid, Complex, Reasoning];
            && (Rank(ladder[i]) < Rank(ladder[j]) <==> i < j)
            && Rank(Other(name)) == Rank(ladder[0])
  {
    var ladder := [Free, Simple, Mid, Complex, Reasoning];
    assert Rank(ladder[i]) == i && Rank(ladder[j]) == j;
  }

  datatype Message = Message(role: string, content: string)

  // ---------------------------------------------------------------------------------
  // The key. SHA-256 is taken to be injective, so a key is the text that is hashed.

  const NUL: char := '\0'

  function Field(s: string): string {
    s + [NUL]
  }

  /** The messages a key is made of: system messages up to the first user message, and that. */
  function Pinning(msgs: seq<Message>): seq<Message> {
    if msgs == [] then []
    else if msgs[0].role == "user" then [msgs[0]]
    else if msgs[0].role == "system" then [msgs[0]] + Pinning(msgs[1..])
    else Pinning(msgs[1..])
  }

  function Encode(ms: seq<Message>): string {
    if ms == [] then "" else Field(ms[0].role) + Field(ms[0].content) + Encode(ms[1..])
  }

  function KeyText(msgs: seq<Message>): string {
    Encode(Pinning(msgs))
  }

  lemma {:induction false} EncodeAppend(a: seq<Message>, b: seq<Message>)
    ensures Encode(a + b) == Encode(a) + Encode(b)
  {
    if a == [] {
      assert a + b == b;
    } else {
      EncodeAppend(a[1..], b);
      assert (a + b)[1..] == a[1..] + b;
      Regroup(Field(a[0].role) + Field(a[0].content), Encode(a[1..]), Encode(b));
    }
  }

  method SessionKey(msgs: seq<Message>) returns (key: string)
    ensures key == KeyText(msgs)
  {
    key := "";
    for i := 0 to |msgs|
      invariant key + KeyText(msgs[i..]) == KeyText(msgs)
    {
      var m := msgs[i];
      assert msgs[i..][0] == m && msgs[i..][1..] == msgs[i + 1..];
      if m.role == "system" || m.role == "user" {
        ghost var before := key;
        key := key + m.role;
        key := key + [NUL];
        key := key + m.content;
        key := key + [NUL];
        assert key == before + (Field(m.role) + Field(m.content));
        if m.role == "user" {
          assert Encode([m]) == Field(m.role) + Field(m.content) + Encode([]) by { assert [m][1..] == []; }
          return;
        }
        EncodeAppend([m], Pinning(msgs[i + 1..]));
        assert Encode([m]) == Field(m.role) + Field(m.content) + Encode([]) by { assert [m][1..] == []; }
      }
    }
  }

  predicate HasUser(msgs: seq<Message>) {
    exists i | 0 <= i < |msgs| :: msgs[i].role == "user"
  }

  predicate Unpinned(msgs: seq<Message>) {
    forall i | 0 <= i < |msgs| :: msgs[i].role != "user" && msgs[i].role != "system"
  }

  lemma {:induction false} PinningAppend(msgs: seq<Message>, more: seq<Message>)
    ensures Pinning(msgs + more) == if HasUser(msgs) then Pinning(msgs) else Pinning(msgs) + Pinning(more)
    ensures Pinning(more) == [] <==> Unpinned(more)
    decreases |msgs| + |more|
  {
    if msgs == [] {
      assert msgs + more == more;
      if more != [] {
        PinningAppend([], more[1..]);
        assert Unpinned(more) <==> (more[0].role != "user" && more[0].role != "system" && Unpinned(more[1..]));
      }
    } else {
      PinningAppend(msgs[1..], more);
      assert (msgs + more)[1..] == msgs[1..] + more;
      assert HasUser(msgs) <==> msgs[0].role == "user" || HasUser(msgs[1..]);
    }
  }

  /** A conversation keeps its key as it grows exactly when its first user message is already
      there, or what is added holds no system and no user message. */
  lemma KeyIsStable(msgs: seq<Message>, more: seq<Message>)
    ensures KeyText(msgs + more) == KeyText(msgs) <==> HasUser(msgs) || Unpinned(more)
  {
    PinningAppend(msgs, more);
    if !HasUser(msgs) {
      EncodeAppend(Pinning(msgs), Pinning(more));
      assert Pinning(more) != [] ==> |Encode(Pinning(more))| > 0;
      assert Pinning(msgs) + [] == Pinning(msgs);
    }
  }

  /** JSON text holds no raw NUL, and neither do the two roles that are hashed. */
  predicate Clean(msgs: seq<Message>) {
    forall i | 0 <= i < |msgs| :: NUL !in msgs[i].content
  }

  lemma FieldCancels(a: string, x: string, b: string, y: string)
    requires NUL !in a && NUL !in b
    requires Field(a) + x == Field(b) + y
    ensures a == b && x == y
  {
    var s := Field(a) + x;
    assert s[|a|] == NUL && s[|b|] == NUL;
    assert forall i | 0 <= i < |a| :: s[i] == a[i];
    assert forall i | 0 <= i < |b| :: s[i] == b[i];
    assert |a| == |b|;
    assert a == s[..|a|] && b == s[..|b|];
    assert x == s[|a| + 1..] && y == s[|b| + 1..];
  }

  lemma {:induction false} EncodeInjective(a: seq<Message>, b: seq<Message>)
    requires Clean(a) && Clean(b)
    requires forall i | 0 <= i < |a| :: NUL !in a[i].role
    requires forall i | 0 <= i < |b| :: NUL !in b[i].role
    requires Encode(a) == Encode(b)
    ensures a == b
  {
    if a != [] && b != [] {
      var ra, rb := Encode(a[1..]), Encode(b[1..]);
      assert Encode(a) == Field(a[0].role) + (Field(a[0].content) + ra);
      assert Encode(b) == Field(b[0].role) + (Field(b[0].content) + rb);
      FieldCancels(a[0].role, Field(a[0].content) + ra, b[0].role, Field(b[0].content) + rb);
      FieldCancels(a[0].content, ra, b[0].content, rb);
      EncodeInjective(a[1..], b[1..]);
      assert a == [a[0]] + a[1..] && b == [b[0]] + b[1..];
    }
  }

  lemma {:induction false} PinningClean(msgs: seq<Message>)
    requires Clean(msgs)
    ensures Clean(Pinning(msgs))
    ensures forall i | 0 <= i < |Pinning(msgs)| :: Pinning(msgs)[i].role in ["user", "system"]
  {
    if msgs != [] { PinningClean(msgs[1..]); }
  }

  /** Two conversations share a pin exactly when their system messages and first user message
      are the same: the NUL separators leave no room for a collision. */
  lemma KeySeparates(a: seq<Message>, b: seq<Message>)
    requires Clean(a) && Clean(b)
    ensures KeyText(a) == KeyText(b) <==> Pinning(a) == Pinning(b)
  {
    if KeyText(a) == KeyText(b) {
      PinningClean(a);
      PinningClean(b);
      assert NUL !in "user" && NUL !in "system";
      EncodeInjective(Pinning(a), Pinning(b));
    }
  }

  // ---------------------------------------------------------------------------------
  // The pin.

  datatype Pin = Pin(model: string, tier: Tier)
  datatype Status = New | Pinned | Upgraded
  type Pins = map<string, Pin>

  /** Whether (model, tier) would displace what is recorded under the key. */
  predicate Displaces(pins: Pins, key: string, tier: Tier) {
    key !in pins || Rank(pins[key].tier) < Rank(tier)
  }

  function AfterUpgrade(pins: Pins, key: string, model: string, tier: Tier): Pins {
    if Displaces(pins, key, tier) then pins[key := Pin(model, tier)] else pins
  }

  class Session {
    var entries: Pins

    constructor ()
      ensures entries == map[]
    {
      entries := map[];
    }

    method UpgradeIfHigher(msgs: seq<Message>, model: string, tier: Tier)
      returns (finalModel: string, finalTier: Tier, status: Status)
      modifies this
      ensures var key := KeyText(msgs);
              && entries == AfterUpgrade(old(entries), key, model, tier)
              && key in entries && entries[key] == Pin(finalModel, finalTier)
              && status == if key !in old(entries) then New
                           else if Displaces(old(entries), key, tier) then Upgraded else Pinned
    {
      var key := SessionKey(msgs);
      if key !in entries {
        entries := entries[key := Pin(model, tier)];
        return model, tier, New;
      }
      var e := entries[key];
      if Rank(tier) <= Rank(e.tier) {
        return e.model, e.tier, Pinned;
      }
      entries := entries[key := Pin(model, tier)];
      return model, tier, Upgraded;
    }
  }

  /** One routed request as the session cache sees it: the conversation, and what routing
      picked before the pin was consulted. */
  datatype Ask = Ask(msgs: seq<Message>, pick: Pin)

  function PinsAfter(asks: seq<Ask>, n: nat): Pins
    requires n <= |asks|
  {
    if n == 0 then map[]
    else
      var a := asks[n - 1];
      AfterUpgrade(PinsAfter(asks, n - 1), KeyText(a.msgs), a.pick.model, a.pick.tier)
  }

  lemma {:induction false} AskedIsPinned(asks: seq<Ask>, n: nat, i: nat)
    requires i < n <= |asks|
    ensures KeyText(asks[i].msgs) in PinsAfter(asks, n)
  {
    if i < n - 1 { AskedIsPinned(asks, n - 1, i); }
  }

  /** What the n-th request is answered with. */
  function Answer(asks: seq<Ask>, n: nat): Pin
    requires n < |asks|
  {
    AskedIsPinned(asks, n + 1, n);
    PinsAfter(asks, n + 1)[KeyText(asks[n].msgs)]
  }

  /** f is the first pick of the highest rank among the first n requests under this key. */
  ghost predicate FirstBest(asks: seq<Ask>, n: nat, key: string, f: nat) {
    && f < n <= |asks| && KeyText(asks[f].msgs) == key
    && (forall i | 0 <= i < n && KeyText(asks[i].msgs) == key :: Rank(asks[i].pick.tier) <= Rank(asks[f].pick.tier))
    && (forall i | 0 <= i < f && KeyText(asks[i].msgs) == key :: Rank(asks[i].pick.tier) < Rank(asks[f].pick.tier))
  }

  lemma {:induction false} PinIsFirstBest(asks: seq<Ask>, n: nat, key: string) returns (f: nat)
    requires n <= |asks| && key in PinsAfter(asks, n)
    ensures FirstBest(asks, n, key, f) && PinsAfter(asks, n)[key] == asks[f].pick
  {
    var a, before := asks[n - 1], PinsAfter(asks, n - 1);
    if KeyText(a.msgs) != key {
      f := PinIsFirstBest(asks, n - 1, key);
    } else if key !in before {
      f := n - 1;
      forall i | 0 <= i < n - 1 ensures KeyText(asks[i].msgs) != key {
        AskedIsPinned(asks, n - 1, i);
      }
    } else {
      f := PinIsFirstBest(asks, n - 1, key);
      if Rank(asks[f].pick.tier) < Rank(a.pick.tier) { f := n - 1; }
    }
  }

  /** Closed form of any run over any mix of conversations: a request is answered with the
      first pick of the highest rank its conversation has seen so far, itself included. */
  lemma AnswerIsFirstBest(asks: seq<Ask>, n: nat) returns (f: nat)
    requires n < |asks|
    ensures FirstBest(asks, n + 1, KeyText(asks[n].msgs), f) && Answer(asks, n) == asks[f].pick
  {
    AskedIsPinned(asks, n + 1, n);
    f := PinIsFirstBest(asks, n + 1, KeyText(asks[n].msgs));
  }

  /** Over a run, later turns of a conversation never get a lower tier, and get another model
      only together with a strictly higher tier. */
  lemma ConversationSticks(asks: seq<Ask>, i: nat, j: nat)
    requires i <= j < |asks|
    requires HasUser(asks[i].msgs) && asks[i].msgs <= asks[j].msgs
    ensures Rank(Answer(asks, i).tier) <= Rank(Answer(asks, j).tier)
    ensures Answer(asks, i) != Answer(asks, j) ==> Rank(Answer(asks, i).tier) < Rank(Answer(asks, j).tier)
  {
    var more := asks[j].msgs[|asks[i].msgs|..];
    assert asks[j].msgs == asks[i].msgs + more;
    KeyIsStable(asks[i].msgs, more);
    var f := AnswerIsFirstBest(asks, i);
    var g := AnswerIsFirstBest(asks, j);
    if Rank(asks[f].pick.tier) == Rank(asks[g].pick.tier) {
      assert f == g;
    }
  }
}
