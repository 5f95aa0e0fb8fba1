/** Buyer memory: a bounded buffer a buyer, kept in step with an unbounded ghost log. */
module BuyerMemory {
  import opened PyText

  datatype Role = Buyer | Agent

  datatype Interaction = Interaction(text: string, role: Role)

  /** The complete conversation of every buyer that ever had one. */
  type Logs = map<string, seq<Interaction>>

  function LogOf(logs: Logs, b: string): seq<Interaction> { if b in logs then logs[b] else [] }

  function Logged(logs: Logs, b: string, i: Interaction): Logs { logs[b := LogOf(logs, b) + [i]] }

  /** The last `n` elements; none for a non-positive `n`. */
  function Last<T>(s: seq<T>, n: int): seq<T> {
    if n <= 0 then [] else if n >= |s| then s else s[|s| - n..]
  }

  lemma LastOfLast<T>(s: seq<T>, m: int, n: int)
    ensures Last(Last(s, m), n) == Last(s, if m < n then m else n)
  {
    if 0 < n < m {
      if m < |s| { assert s[|s| - m..][m - n..] == s[|s| - n..]; }
    }
  }

  /** Trimming after every append keeps the last `m`. */
  lemma LastOfAppend<T>(s: seq<T>, x: T, m: int)
    ensures Last(Last(s, m) + [x], m) == Last(s + [x], m)
  {
    if 0 < m < |s| {
      assert (s[|s| - m..] + [x])[1..] == (s + [x])[|s| + 1 - m..];
    }
  }

  lemma LastOfNone<T>(m: int)
    ensures Last<T>([], m) == []
  {
  }

  /** Deleting from the front what exceeds `m`. */
  lemma TrimIsLast<T>(s: seq<T>, m: int)
    ensures Last(s, m) == if |s| <= m then s else if m < 0 then s[|s|..] else s[|s| - m..]
  {
  }

  /** What `recall` answers when the full log is `log`. */
  function Recalled(log: seq<Interaction>, maxItems: int, limit: Option<int>): seq<Interaction> {
    if limit.None? || maxItems <= limit.value then Last(log, maxItems) else Last(log, limit.value)
  }

  function Rendered(turns: seq<Interaction>): string {
    if turns == [] then ""
    else
      var t := "[" + (if turns[0].role == Agent then "agent" else "buyer") + "] " + turns[0].text;
      if |turns| == 1 then t else t + " | " + Rendered(turns[1..])
  }

  /** A summary said from its front: every turn is its speaker in brackets and its text, and a bar separates it from the
      turns before it. */
  lemma {:induction false} RenderedMore(turns: seq<Interaction>, t: Interaction)
    ensures var part := (match t.role case Agent => "[agent] " case Buyer => "[buyer] ") + t.text;
            && Rendered([t]) == part
            && (turns != [] ==> Rendered(turns + [t]) == Rendered(turns) + " | " + part)
    decreases |turns|
  {
    if turns != [] {
      assert (turns + [t])[1..] == turns[1..] + [t] && (turns + [t])[0] == turns[0];
      if |turns| > 1 { RenderedMore(turns[1..], t); } else { assert (turns + [t])[1..] == [t]; }
    }
  }

  class InMemoryBuyerMemory {
    const maxItems: int
    const dialecticDepth: int
    var store: map<string, seq<Interaction>>
    ghost var logs: Logs

    /** Every bucket holds exactly the last `maxItems` entries of its buyer's log. */
    ghost predicate Valid()
      reads this
    {
      store.Keys == logs.Keys && forall b :: b in store ==> store[b] == Last(logs[b], maxItems)
    }

    constructor (maxItems: int, dialecticDepth: int)
      ensures Valid() && logs == map[] && this.maxItems == maxItems && this.dialecticDepth == dialecticDepth
    {
      this.maxItems, this.dialecticDepth := maxItems, dialecticDepth;
      store := map[];
      logs := map[];
    }

    /** Append, then drop the oldest entries beyond `maxItems`. */
    method Remember(b: string, i: Interaction)
      requires Valid()
      modifies this
      ensures Valid() && logs == Logged(old(logs), b, i)
      ensures forall c :: c in old(store) && c != b ==> c in store && store[c] == old(store)[c]
    {
      hide Last;
      var bucket := (if b in store then store[b] else []) + [i];
      LastOfNone<Interaction>(maxItems);
      LastOfAppend(LogOf(logs, b), i, maxItems);
      TrimIsLast(bucket, maxItems);
      if |bucket| > maxItems {
        var drop := |bucket| - maxItems;
        bucket := bucket[if drop > |bucket| then |bucket| else drop..];
      }
      store := store[b := bucket];
      logs := Logged(logs, b, i);
    }

    method Recall(b: string, limit: Option<int>) returns (r: seq<Interaction>)
      requires Valid()
      ensures r == Recalled(LogOf(logs, b), maxItems, limit)
    {
      var bucket := if b in store then store[b] else [];
      if limit.None? {
        r := bucket;
      } else if limit.value <= 0 {
        r := [];
      } else {
        LastOfLast(LogOf(logs, b), maxItems, limit.value);
        r := if limit.value >= |bucket| then bucket else bucket[|bucket| - limit.value..];
      }
    }

    /** The last `dialecticDepth` turn pairs, rendered. */
    method Summary(b: string) returns (s: string)
      requires Valid()
      ensures var recent := Recalled(LogOf(logs, b), maxItems, Some(2 * dialecticDepth));
              s == if recent == [] then "no prior interactions" else Rendered(recent)
    {
      var recent := Recall(b, Some(2 * dialecticDepth));
      s := if recent == [] then "no prior interactions" else Rendered(recent);
    }
  }

  // ----- Any interleaving of calls ---------------------------------------------------------------------

  datatype Call = Call(buyer: string, turn: Interaction)

  function AfterCalls(logs: Logs, calls: seq<Call>): Logs
    decreases |calls|
  {
    if calls == [] then logs else AfterCalls(Logged(logs, calls[0].buyer, calls[0].turn), calls[1..])
  }

  function TurnsOf(calls: seq<Call>, b: string): seq<Interaction> {
    if calls == [] then [] else (if calls[0].buyer == b then [calls[0].turn] else []) + TurnsOf(calls[1..], b)
  }

  lemma OneCall(logs: Logs, call: Call, b: string)
    ensures LogOf(Logged(logs, call.buyer, call.turn), b) ==
            LogOf(logs, b) + if call.buyer == b then [call.turn] else []
  {
  }

  /** A buyer's log is the subsequence of calls for that buyer, whatever other buyers do in between. */
  lemma {:induction false} LogIsTheBuyersCalls(logs: Logs, calls: seq<Call>, b: string)
    ensures LogOf(AfterCalls(logs, calls), b) == LogOf(logs, b) + TurnsOf(calls, b)
    decreases |calls|
  {
    hide LogOf, Logged;
    if calls != [] { OneCall(logs, calls[0], b); }
    if calls != [] {
      LogIsTheBuyersCalls(Logged(logs, calls[0].buyer, calls[0].turn), calls[1..], b);
    }
  }

  lemma CallStep(logs: Logs, calls: seq<Call>, i: nat)
    requires i < |calls|
    ensures AfterCalls(logs, calls[i..]) == AfterCalls(Logged(logs, calls[i].buyer, calls[i].turn), calls[i + 1..])
  {
    assert calls[i..][1..] == calls[i + 1..];
  }

  lemma CallsDone(logs: Logs, calls: seq<Call>, b: string)
    requires AfterCalls(logs, calls[|calls|..]) == AfterCalls(map[], calls)
    ensures LogOf(logs, b) == TurnsOf(calls, b)
  {
    LogIsTheBuyersCalls(map[], calls, b);
  }

  /** The bounded buffer refines the unbounded log: run over any calls, it answers from the last entries of the
      buyer's own calls. */
  method Replay(m: InMemoryBuyerMemory, calls: seq<Call>, b: string, limit: Option<int>) returns (r: seq<Interaction>)
    requires m.Valid() && m.logs == map[]
    modifies m
    ensures m.Valid() && r == Recalled(TurnsOf(calls, b), m.maxItems, limit)
  {
    hide AfterCalls, Logged, LogOf, TurnsOf, Recalled;
    assert calls[0..] == calls;
    for i := 0 to |calls|
      invariant m.Valid() && AfterCalls(m.logs, calls[i..]) == AfterCalls(map[], calls)
    {
      CallStep(m.logs, calls, i);
      m.Remember(calls[i].buyer, calls[i].turn);
    }
    CallsDone(m.logs, calls, b);
    r := m.Recall(b, limit);
  }
}
