/** The item cache: items are looked up by name, fetched from the server
    on the first request and kept from then on. */
module ItemManager {
  import opened Common
  import opened Models
  import OpenHabClient

  class ItemManager {
    /** Item name to the item fetched for it (which may be null). */
    var cache: map<string, Option<Item>>

    constructor ()
      ensures cache == map[]
    {
      cache := map[];
    }

    /** TryGetItem: a cached name is answered from the cache without a
        fetch; otherwise the item is fetched once, stored under the name
        (a null item too) and returned. The answer is always "found"; a
        failed fetch lets its exception escape and stores nothing. Entries
        are only ever added. */
    method TryGetItem(itemName: string, fetch: Result<Option<Item>, OpenHabClient.ClientError>)
      returns (r: Result<Option<Item>, OpenHabClient.ClientError>, fetched: bool)
      modifies this
      ensures fetched <==> itemName !in old(cache)
      ensures itemName in old(cache) ==> r == Ok(old(cache)[itemName]) && cache == old(cache)
      ensures itemName !in old(cache) && fetch.Ok? ==> r == fetch && cache == old(cache)[itemName := fetch.value]
      ensures itemName !in old(cache) && fetch.Err? ==> r == fetch && cache == old(cache)
      ensures forall name :: name in old(cache) ==> name in cache && cache[name] == old(cache)[name]
      ensures r.Ok? ==> itemName in cache && cache[itemName] == r.value
    {
      if itemName !in cache {
        match fetch {
          case Err(e) =>
            return Err(e), true;
          case Ok(item) =>
            cache := cache[itemName := item];
            return Ok(item), true;
        }
      }
      return Ok(cache[itemName]), false;
    }
  }
}
