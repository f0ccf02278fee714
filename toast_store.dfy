/**
 * The toast store: a map from toast id to toast, kept in insertion order as a JavaScript `Map`
 * is, with add and remove, and `CreateToast`, which stores a new toast under a fresh id. The
 * fresh id (`crypto.randomUUID`) is a parameter; the removal timer is not modelled.
 */
module ToastStore {
  import opened Wrappers

  datatype Status = Debug | Info | Warning | Error | Success

  datatype Toast = Toast(id: string, title: string, description: Option<string>, duration: Option<real>, status: Option<Status>)

  const DefaultDurationMs: real := 3000.0

  /** The insertion order after `set(id, …)`: a new key goes last, an existing key keeps its place. */
  function OrderAfterSet(order: seq<string>, id: string): (r: seq<string>)
    ensures id in order ==> r == order
    ensures id !in order ==> r == order + [id]
    ensures forall k :: k in r <==> k in order || k == id
  {
    if id in order then order else order + [id]
  }

  /** The insertion order after `delete(id)`: every other key keeps its relative place. */
  function OrderAfterDelete(order: seq<string>, id: string): (r: seq<string>)
    ensures forall k :: k in r <==> k in order && k != id
    ensures |r| <= |order|
  {
    if order == [] then []
    else if order[0] == id then OrderAfterDelete(order[1..], id)
    else [order[0]] + OrderAfterDelete(order[1..], id)
  }

  predicate Distinct(s: seq<string>) {
    forall i, j :: 0 <= i < j < |s| ==> s[i] != s[j]
  }

  /** Neither update repeats a key. */
  lemma {:induction false} OrderUpdatesKeepDistinct(order: seq<string>, id: string)
    requires Distinct(order)
    ensures Distinct(OrderAfterSet(order, id))
    ensures Distinct(OrderAfterDelete(order, id))
  {
    if order != [] {
      OrderUpdatesKeepDistinct(order[1..], id);
      var rest := OrderAfterDelete(order[1..], id);
      assert order[0] !in rest by {
        assert order[0] !in order[1..];
      }
    }
  }

  /** Deleting an absent key is a no-op. */
  lemma {:induction false} DeleteAbsent(order: seq<string>, id: string)
    requires id !in order
    ensures OrderAfterDelete(order, id) == order
  {
    if order != [] {
      DeleteAbsent(order[1..], id);
      assert order == [order[0]] + order[1..];
    }
  }

  /** Setting and then deleting a new key gives the original order back. */
  lemma {:induction false} SetThenDelete(order: seq<string>, id: string)
    requires id !in order
    ensures OrderAfterDelete(OrderAfterSet(order, id), id) == order
  {
    if order == [] {
      assert OrderAfterSet(order, id) == [id];
    } else {
      SetThenDelete(order[1..], id);
      assert OrderAfterSet(order, id) == [order[0]] + OrderAfterSet(order[1..], id);
      assert order == [order[0]] + order[1..];
    }
  }

  class Store {
    var toasts: map<string, Toast>
    /** The keys of `toasts` in the order the `Map` iterates them. */
    var order: seq<string>

    ghost predicate Valid()
      reads this
    {
      && Distinct(order)
      && (forall id :: id in toasts <==> id in order)
      && (forall id :: id in toasts ==> toasts[id].id == id)
    }

    /** The store starts with no toasts. */
    constructor ()
      ensures Valid() && toasts == map[] && order == []
    {
      toasts := map[];
      order := [];
    }

    /** `addToast(t)`: stores `t` under `t.id`, replacing any toast with that id. */
    method AddToast(t: Toast)
      requires Valid()
      modifies this
      ensures Valid()
      ensures toasts == old(toasts)[t.id := t]
      ensures order == OrderAfterSet(old(order), t.id)
    {
      OrderUpdatesKeepDistinct(order, t.id);
      toasts := toasts[t.id := t];
      order := OrderAfterSet(order, t.id);
    }

    /** `removeToast(id)`: drops the toast with that id, if any. */
    method RemoveToast(id: string)
      requires Valid()
      modifies this
      ensures Valid()
      ensures toasts == old(toasts) - {id}
      ensures order == OrderAfterDelete(old(order), id)
      ensures id !in old(toasts) ==> toasts == old(toasts) && order == old(order)
    {
      OrderUpdatesKeepDistinct(order, id);
      var remaining, newOrder := toasts - {id}, OrderAfterDelete(order, id);
      if id !in order {
        DeleteAbsent(order, id);
        assert remaining == toasts;
      }
      assert forall k :: k in remaining <==> k in newOrder;
      assert forall k :: k in remaining ==> remaining[k] == toasts[k];
      toasts, order := remaining, newOrder;
    }

    /** The toasts as the container lists them. */
    function Listed(): (r: seq<Toast>)
      reads this
      requires Valid()
      ensures |r| == |order|
      ensures forall i :: 0 <= i < |r| ==> r[i] == toasts[order[i]] && r[i].id == order[i]
    {
      var o, m := order, toasts;
      assert forall i :: 0 <= i < |o| ==> o[i] in m;
      seq(|o|, i requires 0 <= i < |o| => m[o[i]])
    }
  }

  /** The toast `CreateToast` stores: the given title and description, the duration or 3000 ms, and no status. */
  function CreatedToast(id: string, title: string, description: Option<string>, duration: Option<real>): (t: Toast)
    ensures t.id == id && t.title == title && t.description == description
    ensures t.duration == Some(duration.GetOr(DefaultDurationMs))
    ensures t.status == None
  {
    Toast(id, title, description, Some(duration.GetOr(DefaultDurationMs)), None)
  }

  /**
   * `CreateToast`: adds a toast under the fresh id and returns that id. The `status` it is
   * given is not stored.
   */
  method CreateToast(store: Store, freshId: string, title: string, description: Option<string>,
                     duration: Option<real>, status: Option<Status>) returns (id: string)
    requires store.Valid()
    modifies store
    ensures store.Valid()
    ensures id == freshId
    ensures store.toasts == old(store.toasts)[id := CreatedToast(id, title, description, duration)]
    ensures store.order == OrderAfterSet(old(store.order), id)
  {
    id := freshId;
    store.AddToast(CreatedToast(id, title, description, duration));
  }

  /** Creating a toast and then removing it (its timer firing) leaves the store as it was. */
  method CreateThenExpire(store: Store, freshId: string, title: string)
    requires store.Valid() && freshId !in store.toasts
    modifies store
    ensures store.Valid()
    ensures store.toasts == old(store.toasts) && store.order == old(store.order)
  {
    var id := CreateToast(store, freshId, title, None, None, Some(Status.Success));
    assert store.toasts[id].status == None;
    store.RemoveToast(id);
    SetThenDelete(old(store.order), id);
    assert store.toasts == old(store.toasts);
  }
}
