// The cursor paging loop of the production store (internal/storage/r2_wasm.go, List) over an
// abstract pager, shown to list exactly what the in-memory store lists.
module Paging {
  import opened Wrappers
  import opened Order
  import opened MemoryStore

  datatype Page = Page(keys: seq<string>, truncated: bool, cursor: string)

  // The n-th list call with these options ("" is no cursor); None is a failed call. Pages may
  // be of any size the limit allows, and may differ from call to call.
  datatype Bucket = Bucket(list: (nat, string, nat, string) -> Option<Page>)

  // The bucket contents under a prefix do not change: pos says how many of the keys in all
  // precede a cursor. A truncated page is not empty and its cursor resumes right after it.
  ghost predicate Pages(b: Bucket, prefix: string, limit: nat, all: seq<string>, pos: string -> nat) {
    && pos("") == 0
    && forall n: nat, c: string :: pos(c) <= |all| ==> PageOk(b.list(n, prefix, limit, c), pos(c), limit, all, pos)
  }

  ghost predicate PageOk(p: Option<Page>, at: nat, limit: nat, all: seq<string>, pos: string -> nat) {
    p.Some? ==>
      var page := p.value;
      && at + |page.keys| <= |all| && |page.keys| <= limit
      && page.keys == all[at..at + |page.keys|]
      && (page.truncated <==> at + |page.keys| < |all|)
      && (page.truncated ==> page.keys != [] && pos(page.cursor) == at + |page.keys|)
  }

  // The loop ends, and a listing that meets no failed call is the direct listing of the store:
  // every key under the prefix once, ascending, across however many pages.
  method List(b: Bucket, prefix: string, limit: nat, ghost objects: map<string, Bytes>, ghost pos: string -> nat)
    returns (r: Result<seq<string>, StoreError>, calls: nat)
    requires limit >= 1
    requires Pages(b, prefix, limit, Sorted(KeysUnder(objects, prefix)), pos)
    ensures r.Ok? ==> r.value == Sorted(KeysUnder(objects, prefix))
    ensures r.Err? ==> exists n: nat, c :: n + 1 == calls && b.list(n, prefix, limit, c).None?
    ensures (forall n, c :: b.list(n, prefix, limit, c).Some?) ==> r.Ok?
    ensures calls <= |KeysUnder(objects, prefix)| + 1
  {
    ghost var all := Sorted(KeysUnder(objects, prefix));
    AscendingSize(all, KeysUnder(objects, prefix));
    var keys := [];
    var cursor := "";
    calls := 0;
    while true
      invariant pos(cursor) <= |all| && keys == all[..pos(cursor)]
      invariant calls <= pos(cursor)
      decreases |all| - pos(cursor)
    {
      var page := b.list(calls, prefix, limit, cursor);
      assert PageOk(page, pos(cursor), limit, all, pos);
      calls := calls + 1;
      if page.None? { return Err(Failed), calls; }
      keys := keys + page.value.keys;
      if !page.value.truncated { return Ok(keys), calls; }
      cursor := page.value.cursor;
    }
  }
}
