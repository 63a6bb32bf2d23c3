/**
 The click counter (PUT /resources/<id>/click). It needs no API key: the
 caller's key only shapes the serialized reply, which is not modelled.
 */
module Clicks {
  import opened Wrappers
  import opened Directory

  /** Records one click on resource `id`. */
  function AddClick(s: Store, id: Id): (r: Reply)
    ensures id !in s.resources ==> r == Reply(s, Failure(NotFound))
    ensures r.store.resources.Keys == s.resources.Keys
    ensures r.store.languages == s.languages && r.store.categories == s.categories
    ensures r.store.ledger == s.ledger
    ensures forall j :: j in s.resources && j != id ==> r.store.resources[j] == s.resources[j]
    ensures id in s.resources ==>
      && r.store.resources[id].timesClicked == s.resources[id].timesClicked + 1
      && r.store.resources[id].(timesClicked := 0) == s.resources[id].(timesClicked := 0)
      && r.result == Success(r.store.resources[id])
  {
    if id !in s.resources then Reply(s, Failure(NotFound))
    else
      var resource := s.resources[id];
      var clicked := resource.(timesClicked := resource.timesClicked + 1);
      Reply(s.(resources := s.resources[id := clicked]), Success(clicked))
  }

  /** The state after `n` clicks on `id` in a row. */
  function ClickTimes(s: Store, id: Id, n: nat): Store
    decreases n
  {
    if n == 0 then s else ClickTimes(AddClick(s, id).store, id, n - 1)
  }

  /** `n` clicks raise the counter by exactly `n` and change nothing else. */
  lemma {:induction false} ClicksAccumulate(s: Store, id: Id, n: nat)
    ensures id !in s.resources ==> ClickTimes(s, id, n) == s
    ensures id in s.resources ==>
      ClickTimes(s, id, n) == s.(resources := s.resources[id := s.resources[id].(timesClicked := s.resources[id].timesClicked + n)])
    decreases n
  {
    if n > 0 {
      var s1 := AddClick(s, id).store;
      ClicksAccumulate(s1, id, n - 1);
      if id in s.resources {
        assert s1 == s.(resources := s.resources[id := s.resources[id].(timesClicked := s.resources[id].timesClicked + 1)]);
        assert s1.resources[id := s1.resources[id].(timesClicked := s1.resources[id].timesClicked + (n - 1))]
            == s.resources[id := s.resources[id].(timesClicked := s.resources[id].timesClicked + n)];
      }
    }
  }
}
