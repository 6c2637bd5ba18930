/** The cache of pages last sent (qemu/page_cache.c:36-200). */
module PageCache {
  import opened Bytes

  const CACHED_PAGE_LIFETIME: nat := 2

  datatype Item = Empty | Item(addr: nat, age: nat, data: Page)

  /** The page cached for page number `addr`: each has one slot it may be in. */
  function Find(items: seq<Item>, addr: nat): Option<Page>
    requires |items| > 0
  {
    var it := items[addr % |items|];
    if it.Item? && it.addr == addr then Some(it.data) else None
  }

  /** The page is cached, and was used at `age` or later. */
  ghost predicate UsedSince(items: seq<Item>, addr: nat, age: nat)
    requires |items| > 0
  {
    var it := items[addr % |items|];
    it.Item? && it.addr == addr && it.age >= age
  }

  /** The slot holds another page that has been used lately. */
  ghost predicate Fresh(it: Item, addr: nat, age: nat)
  {
    it.Item? && it.addr != addr && it.age + CACHED_PAGE_LIFETIME > age
  }

  class Cache {
    var items: seq<Item>
    /** The last request for memory has failed. */
    ghost var noMemory: bool

    ghost predicate Valid()
      reads this
    {
      |items| > 0
    }

    /** cache_init, for a positive number of pages. */
    constructor (n: nat)
      requires n > 0
      ensures Valid() && forall a: nat :: Find(items, a) == None
    {
      items, noMemory := seq(n, _ => Empty), false;
    }

    /** cache_is_cached: a hit refreshes the page's age and nothing else. */
    method IsCached(addr: nat, age: nat) returns (hit: bool)
      requires Valid()
      modifies this
      ensures Valid() && hit == old(Find(items, addr)).Some?
      ensures forall a: nat :: Find(items, a) == old(Find(items, a))
      ensures hit ==> forall t: nat :: UsedSince(items, addr, t) <==> t <= age
      ensures !hit ==> items == old(items)
      ensures forall a: nat, t: nat :: a != addr ==> UsedSince(items, a, t) == old(UsedSince(items, a, t))
    {
      var pos := addr % |items|;
      hit := items[pos].Item? && items[pos].addr == addr;
      if hit {
        items := items[pos := items[pos].(age := age)];
      }
    }

    /** Memory for a new page may or may not be there. */
    method TryAlloc() returns (ok: bool)
      modifies this`noMemory
      ensures noMemory == !ok
    {
      ok, noMemory := true, false;
    }

    /** cache_insert: overwrites a page that is present; otherwise takes the slot, at the
        cost of whatever is in it, or fails and changes nothing.  A page used within the
        lifetime stays. */
    method Insert(addr: nat, page: Page, age: nat) returns (r: int)
      requires Valid()
      modifies this
      ensures Valid() && (r == 0 || r == -1)
      ensures old(Find(items, addr)).Some? ==> r == 0
      ensures r == 0 ==> Find(items, addr) == Some(page)
      ensures r == -1 ==> items == old(items)
      ensures r == -1 <==> Fresh(old(items[addr % |items|]), addr, age)
                           || (old(items[addr % |items|]).Empty? && noMemory)
      ensures forall a: nat :: a != addr ==> Find(items, a) == old(Find(items, a)) || Find(items, a) == None
      ensures r == 0 ==> forall t: nat :: UsedSince(items, addr, t) <==> t <= age
      ensures forall a: nat, t: nat :: a != addr && old(UsedSince(items, a, t)) && age < t + CACHED_PAGE_LIFETIME ==>
                UsedSince(items, a, t)
    {
      var pos := addr % |items|;
      if items[pos].Item? && items[pos].addr != addr && items[pos].age + CACHED_PAGE_LIFETIME > age {
        return -1;
      }
      if items[pos].Empty? {
        var ok := TryAlloc();
        if !ok {
          return -1;
        }
      }
      items := items[pos := Item(addr, age, page)];
      return 0;
    }

    /** Copying over a cached page. */
    method Overwrite(addr: nat, page: Page)
      requires Valid() && Find(items, addr).Some?
      modifies this
      ensures Valid() && Find(items, addr) == Some(page)
      ensures forall a: nat :: a != addr ==> Find(items, a) == old(Find(items, a))
      ensures forall a: nat, t: nat :: UsedSince(items, a, t) == old(UsedSince(items, a, t))
    {
      var pos := addr % |items|;
      items := items[pos := items[pos].(data := page)];
    }
  }
}
