/** The per-user conversation window: the most recent turns, oldest evicted first. */
module Memory {

  /** How many turns (three exchanges) are kept per user. */
  const Capacity: nat := 6

  datatype Speaker = UserSpeaker | ModelSpeaker

  /** One entry of a conversation: who spoke and what was said. */
  datatype Turn = Turn(role: Speaker, part: string)

  type Store = map<int, seq<Turn>>

  /** The list for a user; a user with no history has an empty one. */
  function Lookup(store: Store, userId: int): seq<Turn> {
    if userId in store then store[userId] else []
  }

  /** `r` is a (possibly empty) trailing part of `s`. */
  ghost predicate IsSuffix<T>(r: seq<T>, s: seq<T>) {
    |r| <= |s| && s[|s| - |r|..] == r
  }

  /** Python's `s[-n:]` for a positive `n`: the last `n` entries, or all of them. */
  function Tail<T>(s: seq<T>, n: nat): (r: seq<T>)
    requires n > 0
    ensures |r| <= n
    ensures |r| == n || r == s
    ensures IsSuffix(r, s)
  {
    if |s| <= n then s else s[|s| - n..]
  }

  /** The context handed to the model for a user's next turn. */
  function History(store: Store, userId: int): (h: seq<Turn>)
    ensures |h| <= Capacity
    ensures |h| == Capacity || h == Lookup(store, userId)
    ensures IsSuffix(h, Lookup(store, userId))
  {
    Tail(Lookup(store, userId), Capacity)
  }

  /** A conversation made of whole exchanges: a user turn, then the model's answer. */
  ghost predicate Paired(s: seq<Turn>)
    decreases |s|
  {
    |s| == 0 || (|s| >= 2 && s[0].role == UserSpeaker && s[1].role == ModelSpeaker && Paired(s[2..]))
  }

  /** Every stored conversation fits the window and consists of whole exchanges. */
  ghost predicate Valid(store: Store) {
    forall u :: u in store ==> |store[u]| <= Capacity && Paired(store[u])
  }

  /** Record one exchange: the user's turn and the model's reply are appended
      and the list is cut back to the last `Capacity` entries. */
  function Remember(store: Store, userId: int, input: string, reply: string): (r: Store)
    ensures userId in r
    ensures |r[userId]| <= Capacity
    ensures |r[userId]| >= 2 && r[userId][|r[userId]| - 2..] == [Turn(UserSpeaker, input), Turn(ModelSpeaker, reply)]
    ensures forall u :: u != userId ==> Lookup(r, u) == Lookup(store, u) && (u in r <==> u in store)
  {
    var grown := Lookup(store, userId) + [Turn(UserSpeaker, input), Turn(ModelSpeaker, reply)];
    store[userId := Tail(grown, Capacity)]
  }

  /** With `grown` the old list followed by the new exchange, the new list
      is exactly the last `min(Capacity, |grown|)` entries of `grown`. */
  lemma RememberKeepsNewest(store: Store, userId: int, input: string, reply: string)
    ensures var grown := Lookup(store, userId) + [Turn(UserSpeaker, input), Turn(ModelSpeaker, reply)];
      var kept := Remember(store, userId, input, reply)[userId];
      && |kept| == (if |grown| < Capacity then |grown| else Capacity)
      && IsSuffix(kept, grown)
  {
  }

  /** Whole exchanges make a list of even length. */
  lemma {:induction false} PairedEven(s: seq<Turn>)
    requires Paired(s)
    ensures |s| % 2 == 0
    decreases |s|
  {
    if |s| > 0 {
      PairedEven(s[2..]);
    }
  }

  /** Appending an exchange to whole exchanges gives whole exchanges. */
  lemma {:induction false} AppendPair(s: seq<Turn>, input: string, reply: string)
    requires Paired(s)
    ensures Paired(s + [Turn(UserSpeaker, input), Turn(ModelSpeaker, reply)])
    decreases |s|
  {
    var pair := [Turn(UserSpeaker, input), Turn(ModelSpeaker, reply)];
    if |s| == 0 {
      assert (s + pair)[2..] == [];
    } else {
      AppendPair(s[2..], input, reply);
      assert (s + pair)[2..] == s[2..] + pair;
    }
  }

  /** Remembering an exchange keeps every stored conversation valid. */
  lemma {:induction false} RememberKeepsValid(store: Store, userId: int, input: string, reply: string)
    ensures Valid(store) ==> Valid(Remember(store, userId, input, reply))
  {
    if !Valid(store) {
      return;
    }
    var before := Lookup(store, userId);
    var grown := before + [Turn(UserSpeaker, input), Turn(ModelSpeaker, reply)];
    AppendPair(before, input, reply);
    PairedEven(before);
    if |grown| > Capacity {
      assert |grown| == Capacity + 2;
      assert Tail(grown, Capacity) == grown[2..];
    }
  }
}
