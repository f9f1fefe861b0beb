/** The store of resumable sessions as the program keeps it: a list of shared
    elements and a map that points into it. */
module ResumeStores {
  import opened Options
  import opened Conversations
  import opened Lru

  class Element {
    const key: Fingerprint
    var cliSessionId: string

    constructor (key: Fingerprint, cliSessionId: string)
      ensures this.key == key && this.cliSessionId == cliSessionId
    {
      this.key := key;
      this.cliSessionId := cliSessionId;
    }
  }

  function KeysOf(order: seq<Element>): seq<Fingerprint> {
    seq(|order|, i requires 0 <= i < |order| => order[i].key)
  }

  function Without(order: seq<Element>, el: Element): (r: seq<Element>)
    ensures forall e <- r :: e in order && e != el
    ensures forall e <- order | e != el :: e in r
  {
    if order == [] then []
    else
      var front, last := order[..|order| - 1], order[|order| - 1];
      assert order == front + [last];
      Without(front, el) + if last == el then [] else [last]
  }

  /** The map indexes the list: each key once, at its element. */
  ghost predicate Indexes(entries: map<Fingerprint, Element>, order: seq<Element>) {
    && Distinct(KeysOf(order))
    && (forall e <- order :: e.key in entries && entries[e.key] == e)
    && (forall k <- entries :: k.Key? && entries[k].key == k && entries[k] in order)
  }

  lemma {:induction false} KeysWithout(order: seq<Element>, el: Element)
    requires forall e <- order :: e.key == el.key ==> e == el
    ensures KeysOf(Without(order, el)) == Drop(KeysOf(order), el.key)
  {
    if order != [] {
      var front, last := order[..|order| - 1], order[|order| - 1];
      KeysWithout(front, el);
      assert KeysOf(order)[..|order| - 1] == KeysOf(front);
      assert KeysOf(Without(front, el) + [last]) == KeysOf(Without(front, el)) + [last.key];
    }
  }

  lemma KeysPushed(order: seq<Element>, el: Element)
    ensures KeysOf([el] + order) == [el.key] + KeysOf(order)
  {
  }

  lemma KeysTaken(order: seq<Element>, n: nat)
    requires n <= |order|
    ensures KeysOf(order[..n]) == KeysOf(order)[..n]
  {
  }

  lemma IndexedKeys(entries: map<Fingerprint, Element>, order: seq<Element>)
    requires Indexes(entries, order)
    ensures Elements(KeysOf(order)) == entries.Keys
  {
    forall k | k in KeysOf(order) ensures k in entries {
      var i :| 0 <= i < |order| && KeysOf(order)[i] == k;
      assert order[i] in order;
    }
    forall k | k in entries ensures k in KeysOf(order) {
      var i :| 0 <= i < |order| && order[i] == entries[k];
      assert KeysOf(order)[i] == k;
    }
  }

  lemma IndexesMoved(entries: map<Fingerprint, Element>, order: seq<Element>, el: Element)
    requires Indexes(entries, order) && el in order
    ensures Indexes(entries, [el] + Without(order, el))
    ensures KeysOf([el] + Without(order, el)) == [el.key] + Drop(KeysOf(order), el.key)
  {
    KeysWithout(order, el);
    KeysPushed(Without(order, el), el);
    TouchDistinct(KeysOf(order), el.key);
  }

  lemma IndexesPushed(entries: map<Fingerprint, Element>, order: seq<Element>, el: Element)
    requires Indexes(entries, order) && el.key.Key? && el.key !in entries
    ensures Indexes(entries[el.key := el], [el] + order)
    ensures KeysOf([el] + order) == [el.key] + KeysOf(order)
  {
    KeysPushed(order, el);
    IndexedKeys(entries, order);
    forall i | 0 <= i < |order|
      ensures KeysOf(order)[i] != el.key
    {
      assert KeysOf(order)[i] in Elements(KeysOf(order));
    }
  }

  lemma IndexesPopped(entries: map<Fingerprint, Element>, order: seq<Element>)
    requires Indexes(entries, order) && order != []
    ensures var last := |order| - 1; Indexes(entries - {order[last].key}, order[..last])
  {
    var last := |order| - 1;
    assert order == order[..last] + [order[last]];
    assert forall i | 0 <= i < last :: KeysOf(order)[i] == order[i].key;
    assert KeysOf(order)[last] == order[last].key;
    assert KeysOf(order[..last]) == KeysOf(order)[..last];
  }

  ghost function IdsOf(entries: map<Fingerprint, Element>): map<Fingerprint, string>
    reads entries.Values
  {
    map k <- entries :: entries[k].cliSessionId
  }

  lemma IdsPushed(was: map<Fingerprint, Element>, all: map<Fingerprint, Element>,
                  now: map<Fingerprint, Element>, el: Element)
    requires el.key !in was && all == was[el.key := el]
    requires now.Keys <= all.Keys && forall k <- now :: now[k] == all[k]
    ensures now.Values <= was.Values + {el}
    ensures forall keys | Elements(keys) == now.Keys ::
      IdsOf(now) == Only(IdsOf(was)[el.key := el.cliSessionId], keys)
  {
  }

  class ResumeStore {
    const max: nat
    var order: seq<Element>
    var entries: map<Fingerprint, Element>

    ghost predicate Valid()
      reads this
    {
      max >= 1 && |order| <= max && Indexes(entries, order)
    }

    ghost function Contents(): Cache
      reads this, entries.Values
    {
      Cache(KeysOf(order), IdsOf(entries))
    }

    constructor (max: int)
      ensures Valid() && Contents() == Cache([], map[])
      ensures this.max == if max <= 0 then 32 else max
    {
      this.max := if max <= 0 then 32 else max;
      order := [];
      entries := map[];
    }

    /** A hit moves its element to the front of the list. */
    method Get(key: Fingerprint) returns (cliSessionId: string, ok: bool)
      requires Valid()
      modifies this
      ensures Valid() && Contents() == Step(old(Contents()), Op.Get(key), max)
      ensures ok == (key.Key? && key in old(Contents()).ids)
      ensures ok ==> cliSessionId == old(Contents()).ids[key]
      ensures ok ==> order != [] && order[0].key == key
      ensures entries == old(entries)
    {
      if key == NoKey || key !in entries {
        return "", false;
      }
      var el := entries[key];
      IndexesMoved(entries, order, el);
      order := [el] + Without(order, el);
      LengthKept(old(order), el);
      return el.cliSessionId, true;
    }

    /** Replaces the id in the shared element, or pushes a new element and
        drops the last ones that no longer fit. */
    method Put(key: Fingerprint, cliSessionId: string)
      requires Valid()
      modifies this, entries.Values
      ensures Valid() && Contents() == Step(old(Contents()), Op.Put(key, cliSessionId), max)
      ensures fresh(entries.Values - old(entries.Values))
      ensures |order| <= max
      ensures key != NoKey && cliSessionId != "" ==>
        key in entries && entries[key].cliSessionId == cliSessionId && order != [] && order[0].key == key
      ensures key == NoKey || cliSessionId == "" ==> Contents() == old(Contents())
    {
      if key == NoKey || cliSessionId == "" {
        return;
      }
      if key in entries {
        Update(entries[key], cliSessionId);
      } else {
        Push(key, cliSessionId);
      }
      assert Contents().keys[0] == key && key in Contents().ids && Contents().ids[key] == cliSessionId;
      assert KeysOf(order)[0] == order[0].key;
    }

    method Update(el: Element, cliSessionId: string)
      requires Valid() && el.key in entries && el == entries[el.key]
      modifies this, el
      ensures Valid() && entries == old(entries)
      ensures order != [] && order[0] == el && el.cliSessionId == cliSessionId
      ensures var was := old(Contents());
        Contents() == Cache([el.key] + Drop(was.keys, el.key), was.ids[el.key := cliSessionId])
    {
      IndexesMoved(entries, order, el);
      LengthKept(order, el);
      order := [el] + Without(order, el);
      assert forall k <- entries :: k == el.key <==> entries[k] == el;
      el.cliSessionId := cliSessionId;
      assert IdsOf(entries) == old(IdsOf(entries))[el.key := cliSessionId];
      assert KeysOf(order) == [el.key] + Drop(old(KeysOf(order)), el.key);
    }

    method Push(key: Fingerprint, cliSessionId: string)
      requires Valid() && key.Key? && key !in entries
      modifies this
      ensures Valid() && fresh(entries.Values - old(entries.Values))
      ensures var was := old(Contents());
        var keys := Take([key] + was.keys, max);
        Contents() == Cache(keys, Only(was.ids[key := cliSessionId], keys))
    {
      var el := new Element(key, cliSessionId);
      IndexesPushed(entries, order, el);
      order := [el] + order;
      ghost var was, all := entries, entries[key := el];
      entries := entries[key := el];
      Trim();
      assert IdsOf(was) == old(IdsOf(entries));
      IdsPushed(was, all, entries, el);
      assert fresh(entries.Values - was.Values);
      assert KeysOf(order) == Take([key] + old(KeysOf(order)), max);
      assert IdsOf(entries) == Only(old(IdsOf(entries))[key := cliSessionId], KeysOf(order));
    }

    method Trim()
      requires max >= 1 && Indexes(entries, order)
      modifies this
      ensures Valid() && KeysOf(order) == Take(old(KeysOf(order)), max)
      ensures entries.Keys == Elements(KeysOf(order)) <= old(entries.Keys)
      ensures forall k <- entries :: entries[k] == old(entries)[k]
    {
      while |order| > max
        invariant max <= |order| || order == old(order)
        invariant |order| <= |old(order)| && order == old(order)[..|order|] && Indexes(entries, order)
        invariant entries.Keys <= old(entries).Keys && forall k <- entries :: entries[k] == old(entries)[k]
      {
        IndexesPopped(entries, order);
        var oldest := order[|order| - 1];
        order := order[..|order| - 1];
        entries := entries - {oldest.key};
      }
      KeysTaken(old(order), |order|);
      IndexedKeys(entries, order);
    }

    method Len() returns (n: nat)
      requires Valid()
      ensures n == |Contents().keys| == |Contents().ids| && n <= max
    {
      n := |order|;
      ElementsCount(KeysOf(order));
      IndexedKeys(entries, order);
      assert Contents().ids.Keys == entries.Keys;
    }
  }

  lemma {:induction false} LengthKept(order: seq<Element>, el: Element)
    ensures |Without(order, el)| <= |order|
    ensures el in order ==> |Without(order, el)| < |order|
  {
    if order != [] {
      assert order == order[..|order| - 1] + [order[|order| - 1]];
      LengthKept(order[..|order| - 1], el);
    }
  }
}
