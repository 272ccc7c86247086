/** The dentry cache of fs/dcache.c: its state, its invariant and its atomic regions.

    A region executed under `dcache_lock` is one function from cache to cache. `ext` counts the
    references that threads hold outside the tree, including the ones a thread still has to put
    between two regions (for instance the parent reference `dput` owes after freeing a child). */
module DcacheModel {
  import opened Options
  import opened Seqs

  type Id = nat
  type Buf = nat

  const DNAME_INLINE_LEN: nat := 16

  /** `d_name.name` points either at the dentry's own `d_iname` or at a kmalloc'ed buffer. */
  datatype NamePtr = Inline | External(buf: Buf)

  datatype Dentry = Dentry(
    count: nat, parent: Id, subdirs: seq<Id>, hashed: bool, referenced: bool,
    hash: nat, len: nat, name: NamePtr, iname: seq<char>)

  /** `unused[0]` is `dentry_unused.next`, the most recent end; the last entry is `.prev`. */
  datatype Cache = Cache(
    live: map<Id, Dentry>, unused: seq<Id>, table: seq<seq<Id>>, bufs: map<Buf, seq<char>>,
    nrDentry: int, nrUnused: int)

  /** The bucket function `d_hash(parent, hash)`; any function into the table will do. */
  type HashFn = (Id, nat) -> nat

  /** How a region ends: a failed BUG() check, a normal end, or a freed dentry `d` whose thread
      now owes a `dput` on the former parent (nothing for a root). */
  datatype Outcome = Bug | Done(cache: Cache) | Freed(cache: Cache, d: Id, owed: Option<Id>)

  // ---------------------------------------------------------------- invariant

  /** The links of one dentry: its parent lists it, and it is the parent of those it lists. */
  ghost predicate Node(live: map<Id, Dentry>, d: Id) {
    d in live ==>
      && live[d].parent in live
      && (live[d].parent != d ==> d in live[live[d].parent].subdirs)
      && NoDup(live[d].subdirs)
      && forall x :: x in live[d].subdirs ==> x in live && live[x].parent == d && x != d
  }

  /** Parent pointers and child lists describe the same forest. */
  ghost predicate TreeOk(live: map<Id, Dentry>) {
    forall d {:trigger Node(live, d)} :: Node(live, d)
  }

  ghost predicate Ranked(live: map<Id, Dentry>, rank: map<Id, nat>, d: Id)
    requires rank.Keys == live.Keys
  {
    d in live && live[d].parent != d && live[d].parent in live ==> rank[live[d].parent] < rank[d]
  }

  ghost predicate RankOk(live: map<Id, Dentry>, rank: map<Id, nat>) {
    && rank.Keys == live.Keys
    && forall d {:trigger Ranked(live, rank, d)} :: Ranked(live, rank, d)
  }

  /** Parent chains end in a root. */
  ghost predicate Acyclic(live: map<Id, Dentry>) {
    exists rank: map<Id, nat> :: RankOk(live, rank)
  }

  ghost predicate Counted(live: map<Id, Dentry>, ext: map<Id, nat>, d: Id)
    requires ext.Keys == live.Keys
  {
    d in live ==> live[d].count == ext[d] + |live[d].subdirs|
  }

  /** Every count is the external references plus the children. */
  ghost predicate CountOk(live: map<Id, Dentry>, ext: map<Id, nat>) {
    && ext.Keys == live.Keys
    && forall d {:trigger Counted(live, ext, d)} :: Counted(live, ext, d)
  }

  ghost predicate Listed(live: map<Id, Dentry>, unused: seq<Id>, d: Id) {
    d in unused <==> d in live && live[d].count == 0
  }

  /** The unused list holds exactly the dentries with count 0, each once. */
  ghost predicate UnusedOk(live: map<Id, Dentry>, unused: seq<Id>) {
    NoDup(unused) && forall d {:trigger Listed(live, unused, d)} :: Listed(live, unused, d)
  }

  ghost predicate ChainOk(live: map<Id, Dentry>, table: seq<seq<Id>>, h: HashFn, b: nat)
    requires b < |table|
  {
    && NoDup(table[b])
    && forall d :: d in table[b] ==> d in live && live[d].hashed && h(live[d].parent, live[d].hash) == b
  }

  ghost predicate Bucketed(live: map<Id, Dentry>, table: seq<seq<Id>>, h: HashFn, d: Id) {
    d in live && live[d].hashed ==>
      var b := h(live[d].parent, live[d].hash); b < |table| && d in table[b]
  }

  /** Every hashed dentry is once in its own bucket, and the buckets hold nothing else. */
  ghost predicate HashOk(live: map<Id, Dentry>, table: seq<seq<Id>>, h: HashFn) {
    && (forall p, x :: h(p, x) < |table|)
    && (forall b {:trigger ChainOk(live, table, h, b)} :: 0 <= b < |table| ==> ChainOk(live, table, h, b))
    && (forall d {:trigger Bucketed(live, table, h, d)} :: Bucketed(live, table, h, d))
  }

  ghost predicate NameFits(live: map<Id, Dentry>, bufs: map<Buf, seq<char>>, d: Id) {
    d in live ==>
      && |live[d].iname| == DNAME_INLINE_LEN
      && match live[d].name
         case Inline => live[d].len < DNAME_INLINE_LEN
         case External(b) => b in bufs && live[d].len <= |bufs[b]|
  }

  ghost predicate SoleOwner(live: map<Id, Dentry>, d: Id, e: Id) {
    d in live && e in live && live[d].name.External? && live[d].name == live[e].name ==> d == e
  }

  ghost predicate Owned(live: map<Id, Dentry>, b: Buf) {
    exists d :: d in live && live[d].name == External(b)
  }

  /** Names fit where they are stored, and every external buffer has exactly one owner. */
  ghost predicate NamesOk(live: map<Id, Dentry>, bufs: map<Buf, seq<char>>) {
    && (forall d {:trigger NameFits(live, bufs, d)} :: NameFits(live, bufs, d))
    && (forall d, e {:trigger SoleOwner(live, d, e)} :: SoleOwner(live, d, e))
    && (forall b {:trigger Owned(live, b)} :: b in bufs ==> Owned(live, b))
  }

  ghost predicate StatsOk(c: Cache) {
    c.nrDentry == |c.live| && c.nrUnused == |c.unused|
  }

  ghost predicate Inv(c: Cache, ext: map<Id, nat>, h: HashFn) {
    && TreeOk(c.live) && Acyclic(c.live) && CountOk(c.live, ext) && UnusedOk(c.live, c.unused)
    && HashOk(c.live, c.table, h) && NamesOk(c.live, c.bufs) && StatsOk(c)
  }

  // ---------------------------------------------------------------- small updates

  function Chain(c: Cache, b: nat): seq<Id> {
    if b < |c.table| then c.table[b] else []
  }

  function BucketOf(c: Cache, h: HashFn, d: Id): nat
    requires d in c.live
  {
    h(c.live[d].parent, c.live[d].hash)
  }

  /** `list_del` (or `list_del_init`) of `d_hash`: harmless on an unhashed dentry. */
  function Unhash(c: Cache, h: HashFn, d: Id): Cache
    requires d in c.live
  {
    var b := BucketOf(c, h, d);
    c.(live := c.live[d := c.live[d].(hashed := false)],
       table := if b < |c.table| then c.table[b := Without(c.table[b], d)] else c.table)
  }

  /** The text a name pointer leads to. */
  function Text(c: Cache, d: Id): seq<char>
    requires d in c.live
  {
    var e := c.live[d];
    match e.name
    case Inline => if e.len <= |e.iname| then e.iname[..e.len] else e.iname
    case External(b) =>
      if b in c.bufs then (if e.len <= |c.bufs[b]| then c.bufs[b][..e.len] else c.bufs[b]) else []
  }

  /** `d_free`: the dentry and its external name go away. */
  function FreeName(c: Cache, d: Id): map<Buf, seq<char>>
    requires d in c.live
  {
    match c.live[d].name
    case Inline => c.bufs
    case External(b) => c.bufs - {b}
  }

  /** Unlinks `d` from its parent's child list; a root is on no list. */
  function Detach(live: map<Id, Dentry>, d: Id): map<Id, Dentry>
    requires d in live
  {
    var p := live[d].parent;
    if p == d || p !in live then live
    else live[p := live[p].(subdirs := Without(live[p].subdirs, d))]
  }

  /** The common tail of `dput` (kill_it) and `prune_one_dentry`. */
  function Kill(c: Cache, h: HashFn, d: Id): Outcome
    requires d in c.live
  {
    var p := c.live[d].parent;
    var u := Unhash(c, h, d);
    Freed(u.(live := Detach(u.live, d) - {d}, bufs := FreeName(c, d), nrDentry := c.nrDentry - 1),
          d, if p == d then None else Some(p))
  }

  // ---------------------------------------------------------------- regions

  /** `dget`. */
  function Get(c: Cache, d: Id): Cache
    requires d in c.live
  {
    c.(live := c.live[d := c.live[d].(count := c.live[d].count + 1)])
  }

  /** `__dget_locked`: also leaves the unused list. */
  function GetLocked(c: Cache, d: Id): Cache
    requires d in c.live
  {
    var g := Get(c, d);
    if d in c.unused then g.(unused := Without(c.unused, d), nrUnused := c.nrUnused - 1) else g
  }

  /** One pass of `dput` (fs/dcache.c:125-161). */
  function PutStep(c: Cache, h: HashFn, d: Id): Outcome
    requires d in c.live && c.live[d].count > 0
  {
    var c1 := c.(live := c.live[d := c.live[d].(count := c.live[d].count - 1)]);
    if c1.live[d].count > 0 then Done(c1)
    else if d in c1.unused then Bug
    else if c1.live[d].hashed then Done(c1.(unused := [d] + c1.unused, nrUnused := c1.nrUnused + 1))
    else Kill(c1, h, d)
  }

  /** One pass of the loop of `prune_dcache` (fs/dcache.c:332-351). */
  function PruneStep(c: Cache, h: HashFn): Outcome
    requires c.unused != [] && c.unused[|c.unused| - 1] in c.live
  {
    var d := c.unused[|c.unused| - 1];
    var rest := c.unused[..|c.unused| - 1];
    if c.live[d].referenced then
      Done(c.(live := c.live[d := c.live[d].(referenced := false)], unused := [d] + rest))
    else if c.live[d].count != 0 then Bug
    else Kill(c.(unused := rest, nrUnused := c.nrUnused - 1), h, d)
  }

  /** The state `d_alloc` fills in: one reference, unhashed, no children. */
  function Fresh(parent: Id, hash: nat, len: nat, name: NamePtr, iname: seq<char>): Dentry {
    Dentry(1, parent, [], false, false, hash, len, name, iname)
  }

  /** The locked region of `d_alloc` and `d_alloc_root`: `parent == id` makes a root. The
      reference taken by `dget(parent)` becomes the child's reference on its parent. */
  function Alloc(c: Cache, id: Id, parent: Id, hash: nat, text: seq<char>, buf: Buf, pad: seq<char>): Cache
    requires parent == id || parent in c.live
  {
    var inline := |text| < DNAME_INLINE_LEN;
    var iname := if inline then text + pad else pad;
    var e := Fresh(parent, hash, |text|, if inline then Inline else External(buf), iname);
    var live := if parent == id then c.live
                else c.live[parent := c.live[parent].(subdirs := [id] + c.live[parent].subdirs)];
    c.(live := live[id := e],
       bufs := if inline then c.bufs else c.bufs[buf := text],
       nrDentry := c.nrDentry + 1)
  }

  /** `d_drop`, and the end of `d_invalidate`. */
  function Drop(c: Cache, h: HashFn, d: Id): Cache
    requires d in c.live
  {
    Unhash(c, h, d)
  }

  /** `d_rehash`. */
  function Rehash(c: Cache, h: HashFn, d: Id): Outcome
    requires d in c.live
  {
    var b := BucketOf(c, h, d);
    if c.live[d].hashed then Bug
    else Done(c.(live := c.live[d := c.live[d].(hashed := true)],
                 table := if b < |c.table| then c.table[b := [d] + c.table[b]] else c.table))
  }

  // ---------------------------------------------------------------- lookup

  datatype Key = Key(parent: Id, hash: nat, text: seq<char>)

  /** The tests `d_lookup` makes on one chain entry. */
  predicate Matches(c: Cache, d: Id, k: Key) {
    d in c.live && c.live[d].hash == k.hash && c.live[d].parent == k.parent &&
    c.live[d].len == |k.text| && Text(c, d) == k.text
  }

  /** First match in a chain. */
  function Scan(c: Cache, chain: seq<Id>, k: Key): Option<Id> {
    if chain == [] then None
    else if Matches(c, chain[0], k) then Some(chain[0])
    else Scan(c, chain[1..], k)
  }

  /** What `d_lookup` finds. */
  function Find(c: Cache, h: HashFn, k: Key): Option<Id> {
    Scan(c, Chain(c, h(k.parent, k.hash)), k)
  }

  /** The region of `d_lookup`: a hit is referenced and flagged. */
  function Lookup(c: Cache, h: HashFn, k: Key): Cache {
    match Find(c, h, k)
    case None => c
    case Some(d) =>
      if d !in c.live then c else
      var g := GetLocked(c, d);
      g.(live := g.live[d := g.live[d].(referenced := true)])
  }

  // ---------------------------------------------------------------- d_move

  /** `list_add(x, after)` on a chain that contains `after`. */
  function InsertAfter(s: seq<Id>, after: Id, x: Id): seq<Id> {
    if s == [] then []
    else if s[0] == after then [after, x] + s[1..]
    else [s[0]] + InsertAfter(s[1..], after, x)
  }

  /** `d_move` up to line 917: `dentry` takes the target's place on the target's hash queue and
      the target is unhashed. On an unhashed target the queue is the target alone, so `dentry`
      ends up unhashed as well. */
  function MoveHash(c: Cache, h: HashFn, d: Id, t: Id): Cache
    requires d in c.live && t in c.live
  {
    var u := Unhash(c, h, d);
    var b := BucketOf(u, h, t);
    var w := u.(live := u.live[d := u.live[d].(hashed := u.live[t].hashed)],
                table := if u.live[t].hashed && b < |u.table|
                         then u.table[b := InsertAfter(u.table[b], t, d)] else u.table);
    w.(live := w.live[t := w.live[t].(hashed := false)],
       table := if b < |w.table| then w.table[b := Without(w.table[b], t)] else w.table)
  }

  /** `switch_names` and the three `do_switch` lines: names, parents, lengths and hashes change
      hands, but the target's own inline bytes are not rewritten. */
  function SwitchNames(e: Dentry, t: Dentry): (Dentry, Dentry) {
    (e.(iname := t.iname, name := t.name, parent := t.parent, len := t.len, hash := t.hash),
     t.(name := e.name, parent := e.parent, len := e.len, hash := e.hash))
  }

  function Attach(live: map<Id, Dentry>, d: Id): map<Id, Dentry>
    requires d in live
  {
    var p := live[d].parent;
    if p !in live then live else live[p := live[p].(subdirs := [d] + live[p].subdirs)]
  }

  /** `d_move` (fs/dcache.c:904-932). */
  function Move(c: Cache, h: HashFn, d: Id, t: Id): Cache
    requires d in c.live && t in c.live
  {
    var w := MoveHash(c, h, d, t);
    var l1 := Detach(w.live, d);
    var l2 := Detach(l1, t);
    var (e', t') := SwitchNames(l2[d], l2[t]);
    var l3 := l2[d := e'][t := t'];
    w.(live := Attach(Attach(l3, t), d))
  }

  // ---------------------------------------------------------------- ancestry

  /** The `n`-fold parent. */
  function Up(live: map<Id, Dentry>, d: Id, n: nat): Id
    decreases n
  {
    if n == 0 || d !in live then d else Up(live, live[d].parent, n - 1)
  }

  /** `a` is `d` or above it. */
  ghost predicate Ancestor(live: map<Id, Dentry>, a: Id, d: Id) {
    exists n: nat :: Up(live, d, n) == a
  }
}
