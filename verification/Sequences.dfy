/** What it means that one list keeps some of the elements of another. */
module Sequences {

  /** The elements at the chosen positions, each once and in the same order. */
  ghost predicate Keeps<T>(s: seq<T>, chosen: set<nat>, kept: seq<T>) {
    exists at: seq<nat> :: KeepsAt(s, chosen, kept, at)
  }

  ghost predicate KeepsAt<T>(s: seq<T>, chosen: set<nat>, kept: seq<T>, at: seq<nat>) {
    && |at| == |kept| == |chosen|
    && (forall i :: i in chosen ==> i < |s|)
    && (forall j :: 0 <= j < |at| ==> at[j] in chosen && kept[j] == s[at[j]])
    && (forall i, j :: 0 <= i < j < |at| ==> at[i] < at[j])
  }

  lemma KeepsNothing<T>()
    ensures Keeps<T>([], {}, [])
  {
    assert KeepsAt<T>([], {}, [], []);
  }

  /** One more element, kept or not. */
  lemma KeepsStep<T>(s: seq<T>, chosen: set<nat>, kept: seq<T>, x: T, more: bool)
    requires Keeps(s, chosen, kept)
    ensures Keeps(s + [x], if more then chosen + {|s|} else chosen, kept + if more then [x] else [])
  {
    var at: seq<nat> :| KeepsAt(s, chosen, kept, at);
    if more {
      assert KeepsAt(s + [x], chosen + {|s|}, kept + [x], at + [|s|]);
    } else {
      assert kept + [] == kept && KeepsAt(s + [x], chosen, kept, at);
    }
  }
}
