/** internal/retry/chain.go: the ladder of topics a record fails forward along. */
module Chain {
  import opened Wrappers

  /** The source and its delay topics, each named once. */
  ghost predicate Ladder(chain: seq<string>) {
    chain != [] && forall i, j | 0 <= i < j < |chain| :: chain[i] != chain[j]
  }

  /** The ladder of the repository, and the two topics off it. */
  const SHIPPED: seq<string> := ["events", "events.retry-5m", "events.retry-1h"]
  const PARKED := "events.parked"
  const DLQ := "events.dlq"

  lemma ShippedIsALadder()
    ensures Ladder(SHIPPED) && PARKED !in SHIPPED && DLQ !in SHIPPED && PARKED != DLQ
    ensures Tiers(SHIPPED) == 2
  {
    assert |SHIPPED[0]| == 6 && |SHIPPED[1]| == |SHIPPED[2]| == 15 && |PARKED| == 13 && |DLQ| == 10;
    assert SHIPPED[1][13] == '5' && SHIPPED[2][13] == '1';
  }

  /** Every topic but the source is a round. */
  function Tiers(chain: seq<string>): int {
    |chain| - 1
  }

  /** The topic after the first one of this name that has a topic after it. */
  function NextTopic(chain: seq<string>, from: string): Option<string> {
    if |chain| < 2 then None
    else if chain[0] == from then Some(chain[1])
    else NextTopic(chain[1..], from)
  }

  predicate InChain(chain: seq<string>, topic: string) {
    topic in chain
  }

  /** On a ladder the next topic is the next rung, and the last rung has none. */
  lemma {:induction false} NextRung(chain: seq<string>, i: nat)
    requires Ladder(chain) && i < |chain|
    ensures NextTopic(chain, chain[i]) == (if i + 1 < |chain| then Some(chain[i + 1]) else None)
  {
    if |chain| >= 2 {
      if i == 0 {
      } else {
        NextRung(chain[1..], i - 1);
      }
    }
  }

  /** A topic off the ladder has no next one. */
  lemma {:induction false} NoNextOffChain(chain: seq<string>, topic: string)
    requires topic !in chain
    ensures NextTopic(chain, topic) == None
  {
    if |chain| >= 2 {
      NoNextOffChain(chain[1..], topic);
    }
  }
}
