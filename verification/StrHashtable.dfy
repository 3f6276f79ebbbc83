/** The chained hash table of src/game_processing/str_hashtable.c. It is keyed by the 32-bit hash alone:
    strings are never compared. */
module StrHashtable {
  import opened Options
  import opened Bytes

  // ---- the hash ---------------------------------------------------------------------------

  function JenkinsRound(hash: bv32, b: byte): bv32 {
    var h := hash + SignExtend(b);
    var h' := h + (h << 10);
    h' ^ (h' >> 6)
  }

  function JenkinsFold(key: seq<byte>): bv32 {
    if key == [] then 0 else JenkinsRound(JenkinsFold(key[..|key| - 1]), key[|key| - 1])
  }

  function JenkinsFinish(hash: bv32): bv32 {
    var h := hash + (hash << 3);
    var h' := h ^ (h >> 11);
    h' + (h' << 15)
  }

  /** jenkins_one_at_a_time_hash as a number below 2^32. */
  function Hash(key: seq<byte>): nat {
    JenkinsFinish(JenkinsFold(key)) as nat
  }

  method ComputeHash(key: seq<byte>) returns (hash: nat)
    ensures hash == Hash(key)
  {
    hide JenkinsRound, JenkinsFinish;
    var h: bv32 := 0;
    for i := 0 to |key|
      invariant h == JenkinsFold(key[..i])
    {
      assert key[..i + 1][..i] == key[..i];
      h := JenkinsRound(h, key[i]);
    }
    assert key[..|key|] == key;
    hash := JenkinsFinish(h) as nat;
  }

  // ---- known hashes -----------------------------------------------------------------------

  lemma EmptyFold()
    ensures JenkinsFold([]) == 0
  {
  }

  /** One more character. */
  lemma FoldMore(key: seq<byte>, longer: seq<byte>, b: byte, before: bv32, after: bv32)
    requires JenkinsFold(key) == before && longer == key + [b] && JenkinsRound(before, b) == after
    ensures JenkinsFold(longer) == after
  {
    assert longer[..|key|] == key;
  }

  /** The published test value of the one-at-a-time hash for "a". */
  lemma HashOfA()
    ensures Hash([0x61]) == 0xca2e_9442
  {
    FoldMore([], [0x61], 0x61, 0, JenkinsRound(0, 0x61));
    assert JenkinsFinish(JenkinsRound(0, 0x61)) == 0xca2e_9442;
  }

  lemma HashOfGo()
    ensures Hash([0x67, 0x6f]) == 0xdb40c277
  {
    hide JenkinsFold;
    EmptyFold();
    var k1: seq<byte> := [] + [0x67];
    assert JenkinsRound(0x00000000, 0x67) == 0x00019a16;
    FoldMore([], k1, 0x67, 0x00000000, 0x00019a16);
    var k2: seq<byte> := k1 + [0x6f];
    assert JenkinsRound(0x00019a16, 0x6f) == 0x0672003f;
    FoldMore(k1, k2, 0x6f, 0x00019a16, 0x0672003f);
    assert k2 == [0x67, 0x6f];
    assert JenkinsFinish(0x0672003f) == 0xdb40c277;
  }

  lemma HashOfSay()
    ensures Hash([0x73, 0x61, 0x79]) == 0xe952a4ec
  {
    hide JenkinsFold;
    EmptyFold();
    var k1: seq<byte> := [] + [0x73];
    assert JenkinsRound(0x00000000, 0x73) == 0x0001cb42;
    FoldMore([], k1, 0x73, 0x00000000, 0x0001cb42);
    var k2: seq<byte> := k1 + [0x61];
    assert JenkinsRound(0x0001cb42, 0x61) == 0x072c96fd;
    FoldMore(k1, k2, 0x61, 0x0001cb42, 0x072c96fd);
    var k3: seq<byte> := k2 + [0x79];
    assert JenkinsRound(0x072c96fd, 0x79) == 0xbb6c46cb;
    FoldMore(k2, k3, 0x79, 0x072c96fd, 0xbb6c46cb);
    assert k3 == [0x73, 0x61, 0x79];
    assert JenkinsFinish(0xbb6c46cb) == 0xe952a4ec;
  }

  lemma HashOfHello()
    ensures Hash([0x68, 0x65, 0x6c, 0x6c, 0x6f]) == 0xc8fd181b
  {
    hide JenkinsFold;
    EmptyFold();
    var k1: seq<byte> := [] + [0x68];
    assert JenkinsRound(0x00000000, 0x68) == 0x0001a6e9;
    FoldMore([], k1, 0x68, 0x00000000, 0x0001a6e9);
    var k2: seq<byte> := k1 + [0x65];
    assert JenkinsRound(0x0001a6e9, 0x65) == 0x0684a433;
    FoldMore(k1, k2, 0x65, 0x0001a6e9, 0x0684a433);
    var k3: seq<byte> := k2 + [0x6c];
    assert JenkinsRound(0x0684a433, 0x6c) == 0x19737c1d;
    FoldMore(k2, k3, 0x6c, 0x0684a433, 0x19737c1d);
    var k4: seq<byte> := k3 + [0x6c];
    assert JenkinsRound(0x19737c1d, 0x6c) == 0xe4f8360b;
    FoldMore(k3, k4, 0x6c, 0x19737c1d, 0xe4f8360b);
    var k5: seq<byte> := k4 + [0x6f];
    assert JenkinsRound(0xe4f8360b, 0x6f) == 0xc6c55603;
    FoldMore(k4, k5, 0x6f, 0xe4f8360b, 0xc6c55603);
    assert k5 == [0x68, 0x65, 0x6c, 0x6c, 0x6f];
    assert JenkinsFinish(0xc6c55603) == 0xc8fd181b;
  }

  lemma HashOfHi()
    ensures Hash([0x68, 0x69]) == 0x6f4e6940
  {
    hide JenkinsFold;
    EmptyFold();
    var k1: seq<byte> := [] + [0x68];
    assert JenkinsRound(0x00000000, 0x68) == 0x0001a6e9;
    FoldMore([], k1, 0x68, 0x00000000, 0x0001a6e9);
    var k2: seq<byte> := k1 + [0x69];
    assert JenkinsRound(0x0001a6e9, 0x69) == 0x068494ef;
    FoldMore(k1, k2, 0x69, 0x0001a6e9, 0x068494ef);
    assert k2 == [0x68, 0x69];
    assert JenkinsFinish(0x068494ef) == 0x6f4e6940;
  }

  lemma HashOfBot()
    ensures Hash([0x62, 0x6f, 0x74]) == 0xed837b85
  {
    hide JenkinsFold;
    EmptyFold();
    var k1: seq<byte> := [] + [0x62];
    assert JenkinsRound(0x00000000, 0x62) == 0x00018e43;
    FoldMore([], k1, 0x62, 0x00000000, 0x00018e43);
    var k2: seq<byte> := k1 + [0x6f];
    assert JenkinsRound(0x00018e43, 0x6f) == 0x0624a7e8;
    FoldMore(k1, k2, 0x6f, 0x00018e43, 0x0624a7e8);
    var k3: seq<byte> := k2 + [0x74];
    assert JenkinsRound(0x0624a7e8, 0x74) == 0x9aa5003d;
    FoldMore(k2, k3, 0x74, 0x0624a7e8, 0x9aa5003d);
    assert k3 == [0x62, 0x6f, 0x74];
    assert JenkinsFinish(0x9aa5003d) == 0xed837b85;
  }

  // ---- the table as values ----------------------------------------------------------------

  datatype Entry<V> = Entry(hash: nat, value: V)

  /** Each bucket holds entries of its own residue, no hash twice. */
  ghost predicate Bucketed<V>(buckets: seq<seq<Entry<V>>>)
  {
    forall b, i :: 0 <= b < |buckets| && 0 <= i < |buckets[b]| ==>
      buckets[b][i].hash % |buckets| == b && forall j :: 0 <= j < i ==> buckets[b][j].hash != buckets[b][i].hash
  }

  ghost predicate InBucket<V>(bucket: seq<Entry<V>>, h: nat, v: V) {
    exists i :: 0 <= i < |bucket| && bucket[i] == Entry(h, v)
  }

  /** The buckets hold exactly the pairs of the finite map m. */
  ghost predicate Stands<V(!new)>(buckets: seq<seq<Entry<V>>>, m: map<nat, V>)
    requires |buckets| > 0
  {
    forall h: nat, v: V :: InBucket(buckets[h % |buckets|], h, v) <==> h in m && m[h] == v
  }

  /** Appending a new hash to its bucket extends the map. */
  lemma AppendStands<V(!new)>(buckets: seq<seq<Entry<V>>>, m: map<nat, V>, h: nat, v: V)
    requires |buckets| > 0 && Bucketed(buckets) && Stands(buckets, m) && h !in m
    ensures var b := h % |buckets|;
            var more := buckets[b := buckets[b] + [Entry(h, v)]];
            Bucketed(more) && Stands(more, m[h := v])
  {
    var b := h % |buckets|;
    var more := buckets[b := buckets[b] + [Entry(h, v)]];
    forall i | 0 <= i < |buckets[b]|
      ensures buckets[b][i].hash != h
    {
      assert InBucket(buckets[b], buckets[b][i].hash, buckets[b][i].value);
    }
    forall g: nat, u: V
      ensures InBucket(more[g % |more|], g, u) <==> g in m[h := v] && m[h := v][g] == u
    {
      assert InBucket(buckets[g % |buckets|], g, u) <==> g in m && m[g] == u;
      var was, now := buckets[g % |buckets|], more[g % |more|];
      if InBucket(was, g, u) {
        var i :| 0 <= i < |was| && was[i] == Entry(g, u);
        assert now[i] == Entry(g, u);
      }
      if g == h && u == v {
        assert now[|now| - 1] == Entry(g, u);
      }
    }
  }

  // ---- the table --------------------------------------------------------------------------

  class HashNode<V(0,!new)> {
    var value: Option<V>
    var hashcode: nat
    var next: HashNode?<V>
    ghost var bucket: nat
    ghost var place: nat

    /** A zeroed node, as calloc leaves it. */
    constructor (ghost bucket: nat, ghost place: nat)
      ensures value == None && hashcode == 0 && next == null && this.bucket == bucket && this.place == place
    {
      value := None;
      hashcode := 0;
      next := null;
      this.bucket := bucket;
      this.place := place;
    }
  }

  class Table<V(0,!new)> {
    const size: nat
    const heads: seq<HashNode<V>>
    /** The mutex, which is not recursive: an operation that wants it while it is held never goes on. */
    var locked: bool
    ghost var chains: seq<seq<HashNode<V>>>
    ghost var buckets: seq<seq<Entry<V>>>
    /** The finite map the table stands for. */
    ghost var contents: map<nat, V>

    /** Chain b starts at head b, is linked to its end, and knows its own places. An unused chain is its
        zeroed head alone; a used one carries the entries of its bucket in order. */
    ghost predicate Linked(b: nat)
      requires b < |chains| == |heads| == |buckets|
      reads this`chains, this`buckets, heads, chains[b]
    {
      && |chains[b]| > 0 && chains[b][0] == heads[b]
      && (forall i :: 0 <= i < |chains[b]| ==> chains[b][i].bucket == b && chains[b][i].place == i)
      && (forall i :: 0 < i < |chains[b]| ==> chains[b][i - 1].next == chains[b][i])
      && chains[b][|chains[b]| - 1].next == null
      && (if buckets[b] == [] then |chains[b]| == 1 && heads[b].value == None && heads[b].hashcode == 0
          else
            && |chains[b]| == |buckets[b]|
            && forall i :: 0 <= i < |chains[b]| ==>
                 chains[b][i].value == Some(buckets[b][i].value) && chains[b][i].hashcode == buckets[b][i].hash)
    }

    ghost function Nodes(): set<HashNode<V>>
      reads this`chains
    {
      set b, i | 0 <= b < |chains| && 0 <= i < |chains[b]| :: chains[b][i]
    }

    ghost predicate Valid()
      reads this`chains, this`buckets, this`contents, heads, Nodes()
    {
      && size > 0 && |heads| == |chains| == |buckets| == size
      && (forall b :: 0 <= b < size ==> Linked(b))
      && Bucketed(buckets) && Stands(buckets, contents)
    }

    /** str_hashtable_create. */
    constructor (size: nat)
      requires size > 0
      ensures Valid() && contents == map[] && this.size == size && !locked
      ensures forall n :: n in Nodes() ==> fresh(n)
    {
      var nodes: seq<HashNode<V>> := [];
      ghost var lists: seq<seq<HashNode<V>>> := [];
      for b := 0 to size
        invariant |nodes| == |lists| == b
        invariant forall i :: 0 <= i < b ==> lists[i] == [nodes[i]] && fresh(nodes[i])
        invariant forall i :: 0 <= i < b ==>
                    && nodes[i].value == None && nodes[i].hashcode == 0 && nodes[i].next == null
                    && nodes[i].bucket == i && nodes[i].place == 0
      {
        var node := new HashNode<V>(b, 0);
        nodes := nodes + [node];
        lists := lists + [[node]];
      }
      this.size := size;
      heads := nodes;
      locked := false;
      chains := lists;
      buckets := seq(size, _ => []);
      contents := map[];
    }

    /** The walk shared by add and get: to the node with the hash, or to the end of the chain. */
    method Walk(h: nat) returns (node: HashNode<V>, ghost k: nat)
      requires Valid()
      ensures h % size < |chains| && k < |chains[h % size]| && node == chains[h % size][k]
      ensures node.hashcode == h || k == |chains[h % size]| - 1
      ensures forall i :: 0 <= i < k ==> chains[h % size][i].hashcode != h
    {
      ghost var b := h % size;
      assert Linked(b);
      node := heads[h % size];
      k := 0;
      while node.hashcode != h && node.next != null
        invariant k < |chains[b]| && node == chains[b][k]
        invariant forall i :: 0 <= i < k ==> chains[b][i].hashcode != h
        decreases |chains[b]| - k
      {
        assert k + 1 < |chains[b]| ==> chains[b][k + 1 - 1].next == chains[b][k + 1];
        node := node.next;
        k := k + 1;
      }
      assert k < |chains[b]| - 1 ==> chains[b][k + 1 - 1].next == chains[b][k + 1];
    }

    /** A hash is in the contents exactly when the walk ends on a used node that carries it. */
    lemma WalkMeaning(h: nat, k: nat)
      requires Valid() && h % size < |chains| && k < |chains[h % size]|
      requires chains[h % size][k].hashcode == h || k == |chains[h % size]| - 1
      requires forall i :: 0 <= i < k ==> chains[h % size][i].hashcode != h
      ensures h in contents <==> heads[h % size].value != None && chains[h % size][k].hashcode == h
      ensures h in contents ==> chains[h % size][k].value == Some(contents[h])
      ensures heads[h % size].value == None <==> buckets[h % size] == []
      ensures heads[h % size].value == None ==> k == 0 && chains[h % size][k].value == None
    {
      var b := h % size;
      assert Linked(b);
      if h in contents {
        assert InBucket(buckets[b], h, contents[h]);
        var i :| 0 <= i < |buckets[b]| && buckets[b][i] == Entry(h, contents[h]);
        assert chains[b][i].hashcode == h;
      }
      if heads[b].value != None && chains[b][k].hashcode == h {
        assert InBucket(buckets[b], h, buckets[b][k].value);
      }
    }

    /** str_hashtable_get: NULL arguments and absent hashes give NULL. */
    method Get(str: Option<seq<byte>>) returns (value: Option<V>)
      requires Valid() && (str.Some? ==> !locked)
      ensures Valid()
      ensures value == if str.Some? && Hash(str.value) in contents then Some(contents[Hash(str.value)]) else None
    {
      if str == None {
        return None;
      }
      var h := ComputeHash(str.value);
      var node, k := Walk(h);
      WalkMeaning(h, k);
      value := if node.hashcode == h then node.value else None;
    }

    /** str_hashtable_add: fails on NULL arguments and on a hash that is already there, and in the second
        case returns without unlocking. */
    method Add(str: Option<seq<byte>>, value: Option<V>) returns (ok: bool, code: Option<nat>)
      requires Valid() && (str.Some? && value.Some? ==> !locked)
      modifies this, Nodes()
      ensures Valid() && forall n :: n in Nodes() ==> n in old(Nodes()) || fresh(n)
      ensures ok <==> str.Some? && value.Some? && Hash(str.value) !in old(contents)
      ensures contents == if ok then old(contents)[Hash(str.value) := value.value] else old(contents)
      ensures code == if ok then Some(Hash(str.value)) else None
      ensures locked == if str.Some? && value.Some? then !ok else old(locked)
    {
      if value == None || str == None {
        return false, None;
      }
      var h := ComputeHash(str.value);
      locked := true;
      var node, k := Walk(h);
      WalkMeaning(h, k);
      if heads[h % size].value != None {
        if node.hashcode == h {
          return false, None;
        }
        Append(h, value.value, node);
      } else {
        assert Linked(h % size);
        Use(h, value.value, node);
      }
      locked := false;
      return true, Some(h);
    }

    /** Chains of other buckets share no node with chain b. */
    lemma OtherNode(b: nat, c: nat, i: nat, j: nat)
      requires Valid() && b < size && c < size && i < |chains[b]| && j < |chains[c]| && (b, i) != (c, j)
      ensures chains[b][i] != chains[c][j]
    {
      assert Linked(b) && Linked(c);
    }

    /** The first entry of a bucket goes into its head. */
    method Use(h: nat, v: V, head: HashNode<V>)
      requires Valid() && h !in contents && h % size < |heads| && head == heads[h % size] && head.value == None
      modifies this, head
      ensures Valid() && Nodes() == old(Nodes()) && contents == old(contents)[h := v]
    {
      ghost var b := h % size;
      assert Linked(b);
      forall c, j | 0 <= c < size && c != b && 0 <= j < |chains[c]|
        ensures chains[c][j] != head
      {
        OtherNode(b, c, 0, j);
      }
      AppendStands(buckets, contents, h, v);
      head.hashcode := h;
      head.value := Some(v);
      head.next := null;
      contents := contents[h := v];
      buckets := buckets[b := buckets[b] + [Entry(h, v)]];
      assert Linked(b);
      forall c | 0 <= c < size && c != b
        ensures Linked(c)
      {
        Untouched(c);
      }
    }

    twostate lemma Untouched(new c: nat)
      requires c < |heads| == |chains| == |buckets| == |old(chains)| == |old(buckets)| && old(Linked(c))
      requires chains[c] == old(chains)[c] && buckets[c] == old(buckets)[c]
      requires forall i :: 0 <= i < |chains[c]| ==> unchanged(chains[c][i])
      ensures Linked(c)
    {
    }

    twostate lemma GrownNodes(new b: nat, new node: HashNode<V>)
      requires b < |old(chains)| && chains == old(chains)[b := old(chains)[b] + [node]]
      ensures Nodes() == old(Nodes()) + {node}
    {
      forall n | n in old(Nodes()) + {node}
        ensures n in Nodes()
      {
        if n == node {
          assert chains[b][|chains[b]| - 1] == n;
        } else {
          var c, i :| 0 <= c < |old(chains)| && 0 <= i < |old(chains)[c]| && old(chains)[c][i] == n;
          assert chains[c][i] == n;
        }
      }
    }

    twostate lemma GrownBucket(new b: nat, new node: HashNode<V>)
      requires b < |heads| == |chains| == |buckets| == |old(chains)| == |old(buckets)|
      requires old(Linked(b)) && old(buckets)[b] != []
      requires chains[b] == old(chains)[b] + [node] && node.value.Some?
      requires buckets[b] == old(buckets)[b] + [Entry(node.hashcode, node.value.value)]
      requires var last := old(chains)[b][|old(chains)[b]| - 1];
               && last.next == node && last.value == old(last.value) && last.hashcode == old(last.hashcode)
               && last.bucket == old(last.bucket) && last.place == old(last.place)
      requires forall i :: 0 <= i < |old(chains)[b]| - 1 ==> unchanged(old(chains)[b][i])
      requires node.next == null && node.bucket == b && node.place == |old(chains)[b]|
      ensures Linked(b)
    {
    }

    lemma UsedIsFilled(b: nat)
      requires Valid() && b < size && heads[b].value != None
      ensures |chains| == |heads| == |buckets| == size && buckets[b] != [] && |chains[b]| > 0 && Linked(b)
      ensures forall c, j :: 0 <= c < size && 0 <= j < |chains[c]| && (c, j) != (b, |chains[b]| - 1) ==>
                chains[c][j] != chains[b][|chains[b]| - 1]
    {
      assert Linked(b);
      forall c, j | 0 <= c < size && 0 <= j < |chains[c]| && (c, j) != (b, |chains[b]| - 1)
        ensures chains[c][j] != chains[b][|chains[b]| - 1]
      {
        OtherNode(b, c, |chains[b]| - 1, j);
      }
    }

    /** Further entries go to the end of the chain. */
    method Append(h: nat, v: V, last: HashNode<V>)
      requires Valid() && h !in contents && h % size < |heads| == |chains| && heads[h % size].value != None
      requires |chains[h % size]| > 0 && last == chains[h % size][|chains[h % size]| - 1]
      modifies this, last
      ensures Valid() && contents == old(contents)[h := v]
      ensures forall n :: n in Nodes() ==> n in old(Nodes()) || fresh(n)
    {
      hide Linked;
      ghost var b := h % size;
      UsedIsFilled(b);
      AppendStands(buckets, contents, h, v);
      var node := new HashNode<V>(b, |chains[b]|);
      last.next := node;
      node.hashcode := h;
      node.value := Some(v);
      chains := chains[b := chains[b] + [node]];
      buckets := buckets[b := buckets[b] + [Entry(h, v)]];
      contents := contents[h := v];
      GrownNodes(b, node);
      GrownBucket(b, node);
      forall c | 0 <= c < size && c != b
        ensures Linked(c)
      {
        assert old(Linked(c));
        Untouched(c);
      }
    }
  }

  // ---- runs of adds -----------------------------------------------------------------------

  /** The finite map after a run of adds of (hash, value) pairs to an empty table. */
  function AddAll<V>(adds: seq<(nat, V)>): map<nat, V> {
    if adds == [] then map[]
    else
      var m, e := AddAll(adds[..|adds| - 1]), adds[|adds| - 1];
      if e.0 in m then m else m[e.0 := e.1]
  }

  /** The first add of hash h is the i-th. */
  ghost predicate FirstAt<V>(adds: seq<(nat, V)>, h: nat, i: int) {
    0 <= i < |adds| && adds[i].0 == h && forall j :: 0 <= j < i ==> adds[j].0 != h
  }

  /** Over any run of adds the first add of a hash decides what get returns for it; a hash never added
      is absent. */
  lemma {:induction false} FirstAddWins<V>(adds: seq<(nat, V)>, h: nat)
    ensures h in AddAll(adds) <==> exists i :: FirstAt(adds, h, i)
    ensures forall i :: FirstAt(adds, h, i) ==> h in AddAll(adds) && AddAll(adds)[h] == adds[i].1
  {
    if adds != [] {
      var n := |adds| - 1;
      var front := adds[..n];
      FirstAddWins(front, h);
      if h in AddAll(front) {
        var i :| FirstAt(front, h, i);
        assert FirstAt(adds, h, i);
      } else {
        assert forall j :: 0 <= j < n ==> adds[j].0 != h by {
          NeverAdded(front, h, n);
        }
        if adds[n].0 == h {
          assert FirstAt(adds, h, n);
        }
      }
    }
  }

  lemma {:induction false} NeverAdded<V>(adds: seq<(nat, V)>, h: nat, n: nat)
    requires n <= |adds| && !exists i :: FirstAt(adds, h, i)
    ensures forall j :: 0 <= j < n ==> adds[j].0 != h
  {
    if n > 0 {
      NeverAdded(adds, h, n - 1);
      assert !FirstAt(adds, h, n - 1);
    }
  }

  // ---- runs of operations -----------------------------------------------------------------

  /** A call of str_hashtable_add or str_hashtable_get; None is NULL. */
  datatype Op<V> = AddOp(str: Option<seq<byte>>, value: Option<V>) | GetOp(str: Option<seq<byte>>) {
    /** NULL arguments are refused before the mutex is taken. */
    predicate Locks() {
      str.Some? && (AddOp? ==> value.Some?)
    }
  }

  /** The pairs that a run of operations tries to add. */
  function Pairs<V>(ops: seq<Op<V>>): seq<(nat, V)> {
    if ops == [] then []
    else
      var rest, op := Pairs(ops[..|ops| - 1]), ops[|ops| - 1];
      if op.AddOp? && op.Locks() then rest + [(Hash(op.str.value), op.value.value)] else rest
  }

  predicate AddsHash<V>(op: Op<V>, h: nat) {
    op.AddOp? && op.Locks() && Hash(op.str.value) == h
  }

  ghost predicate Added<V>(ops: seq<Op<V>>, k: int, h: nat) {
    exists i :: 0 <= i < k && i < |ops| && AddsHash(ops[i], h)
  }

  /** Operation k adds a hash that an earlier one has added. */
  ghost predicate Repeats<V>(ops: seq<Op<V>>, k: int) {
    0 <= k < |ops| && ops[k].AddOp? && ops[k].Locks() && Added(ops, k, Hash(ops[k].str.value))
  }

  /** The map after the first k operations. */
  function MapAt<V>(ops: seq<Op<V>>, k: nat): map<nat, V>
    requires k <= |ops|
  {
    AddAll(Pairs(ops[..k]))
  }

  lemma MapNext<V>(ops: seq<Op<V>>, k: nat)
    requires k < |ops|
    ensures MapAt(ops, k + 1) ==
            if ops[k].AddOp? && ops[k].Locks() && Hash(ops[k].str.value) !in MapAt(ops, k)
            then MapAt(ops, k)[Hash(ops[k].str.value) := ops[k].value.value]
            else MapAt(ops, k)
  {
    assert ops[..k + 1][..k] == ops[..k];
    var pairs := Pairs(ops[..k]);
    if ops[k].AddOp? && ops[k].Locks() {
      var pair := (Hash(ops[k].str.value), ops[k].value.value);
      assert (pairs + [pair])[..|pairs|] == pairs;
    }
  }

  /** A hash is in the map exactly when some operation has tried to add it. */
  lemma {:induction false} MapHolds<V>(ops: seq<Op<V>>, k: nat, h: nat)
    requires k <= |ops|
    ensures h in MapAt(ops, k) <==> Added(ops, k, h)
  {
    hide *;
    if k == 0 {
      NothingAdded(ops, h);
    } else {
      MapHolds(ops, k - 1, h);
      MapNext(ops, k - 1);
      AddedNext(ops, k - 1, h);
    }
  }

  lemma NothingAdded<V>(ops: seq<Op<V>>, h: nat)
    ensures MapAt(ops, 0) == map[] && !Added(ops, 0, h)
  {
    assert ops[..0] == [];
  }

  lemma AddedNext<V>(ops: seq<Op<V>>, k: nat, h: nat)
    requires k < |ops|
    ensures Added(ops, k + 1, h) <==>
            Added(ops, k, h) || (ops[k].AddOp? && ops[k].Locks() && Hash(ops[k].str.value) == h)
  {
    hide Hash;
    if AddsHash(ops[k], h) {
      assert Added(ops, k + 1, h);
    }
  }

  /** No operation before k wanted the mutex after a repeated add. */
  ghost predicate Unblocked<V>(ops: seq<Op<V>>, k: nat) {
    forall i, j {:trigger Repeats(ops, i), ops[j]} :: 0 <= i < j < k && j < |ops| && Repeats(ops, i) ==> !ops[j].Locks()
  }

  ghost predicate AnyRepeat<V>(ops: seq<Op<V>>, k: nat) {
    exists i :: 0 <= i < k && Repeats(ops, i)
  }

  lemma UnblockedNext<V>(ops: seq<Op<V>>, k: nat)
    requires k < |ops| && Unblocked(ops, k)
    ensures Unblocked(ops, k + 1) <==> !(AnyRepeat(ops, k) && ops[k].Locks())
    ensures AnyRepeat(ops, k + 1) <==> AnyRepeat(ops, k) || Repeats(ops, k)
  {
    hide Repeats;
    if i :| 0 <= i < k && Repeats(ops, i) {
      assert Unblocked(ops, k + 1) ==> !ops[k].Locks();
    }
  }

  lemma RepeatMeans<V>(ops: seq<Op<V>>, k: nat)
    requires k < |ops|
    ensures Repeats(ops, k) <==> ops[k].AddOp? && ops[k].Locks() && Hash(ops[k].str.value) in MapAt(ops, k)
  {
    if ops[k].AddOp? && ops[k].Locks() {
      MapHolds(ops, k, Hash(ops[k].str.value));
    }
  }

  lemma StartsUnblocked<V>(ops: seq<Op<V>>)
    ensures Unblocked(ops, 0) && !AnyRepeat(ops, 0)
  {
  }

  lemma StaysBlocked<V>(ops: seq<Op<V>>, k: nat)
    requires k < |ops| && Unblocked(ops, |ops|)
    ensures Unblocked(ops, k + 1)
  {
  }

  function Lookup<V>(m: map<nat, V>, str: Option<seq<byte>>): Option<V> {
    if str.Some? && Hash(str.value) in m then Some(m[Hash(str.value)]) else None
  }

  /** What the code makes of any run of adds and gets on a fresh table: each get answers from the pairs
      added so far, the first add of a hash winning. The run completes if and only if no operation that
      takes the mutex follows an add of a hash already there; otherwise it stops at the first such. */
  method RunOps<V(0,!new)>(size: nat, ops: seq<Op<V>>) returns (t: Table<V>, done: nat, replies: seq<Option<V>>)
    requires size > 0
    ensures fresh(t) && t.Valid() && done <= |ops| && |replies| == done && t.contents == MapAt(ops, done)
    ensures done == |ops| <==> Unblocked(ops, |ops|)
    ensures done < |ops| ==> t.locked && ops[done].Locks() && AnyRepeat(ops, done)
    ensures forall k :: 0 <= k < done && ops[k].GetOp? ==> replies[k] == Lookup(MapAt(ops, k), ops[k].str)
  {
    hide *;
    t := new Table<V>(size);
    done, replies := 0, [];
    StartsUnblocked(ops);
    NothingAdded(ops, 0);
    while done < |ops| && !(t.locked && ops[done].Locks())
      invariant t.Valid() && fresh(t) && forall n :: n in t.Nodes() ==> fresh(n)
      invariant done <= |ops| && |replies| == done && t.contents == MapAt(ops, done)
      invariant Unblocked(ops, done) && (t.locked <==> AnyRepeat(ops, done))
      invariant forall k :: 0 <= k < done && ops[k].GetOp? ==> replies[k] == Lookup(MapAt(ops, k), ops[k].str)
      decreases |ops| - done
    {
      var reply: Option<V> := None;
      var op := ops[done];
      LocksMeans(op);
      MapNext(ops, done);
      UnblockedNext(ops, done);
      RepeatMeans(ops, done);
      match op {
        case AddOp(str, value) =>
          var ok, code := t.Add(str, value);
        case GetOp(str) =>
          reply := t.Get(str);
          LookupIs(t.contents, str);
      }
      replies := replies + [reply];
      done := done + 1;
    }
    if done < |ops| {
      UnblockedNext(ops, done);
      if Unblocked(ops, |ops|) {
        StaysBlocked(ops, done);
      }
    }
  }

  lemma LocksMeans<V>(op: Op<V>)
    ensures op.Locks() <==> op.str.Some? && (op.AddOp? ==> op.value.Some?)
  {
  }

  lemma LookupIs<V>(m: map<nat, V>, str: Option<seq<byte>>)
    ensures Lookup(m, str) == if str.Some? && Hash(str.value) in m then Some(m[Hash(str.value)]) else None
  {
  }

  // ---- the table of game functions --------------------------------------------------------

  /** The names gfunc_init adds: "go", "say", "hello", "hi" and "bot". */
  function GameNames(): seq<seq<byte>> {
    [[0x67, 0x6f], [0x73, 0x61, 0x79], [0x68, 0x65, 0x6c, 0x6c, 0x6f], [0x68, 0x69], [0x62, 0x6f, 0x74]]
  }

  lemma GameHashes()
    ensures var names := GameNames();
            && |names| == 5
            && Hash(names[0]) == 0xdb40c277 && Hash(names[1]) == 0xe952a4ec && Hash(names[2]) == 0xc8fd181b
            && Hash(names[3]) == 0x6f4e6940 && Hash(names[4]) == 0xed837b85
  {
    hide Hash;
    HashOfGo();
    HashOfSay();
    HashOfHello();
    HashOfHi();
    HashOfBot();
  }

  /** gfunc_init succeeds: no two of its names are confused by their hashes, so all five adds succeed, the
      mutex is free afterwards, and each name finds the function added under it. */
  method InitGameFunctions<V(0,!new)>(funcs: seq<V>) returns (t: Table<V>, ok: bool)
    requires |funcs| == 5
    ensures fresh(t) && t.Valid() && ok && !t.locked
    ensures forall i :: 0 <= i < 5 ==>
            Hash(GameNames()[i]) in t.contents && t.contents[Hash(GameNames()[i])] == funcs[i]
    ensures forall h :: h in t.contents ==> exists i :: 0 <= i < 5 && h == Hash(GameNames()[i])
  {
    hide Hash, Bucketed, Stands;
    GameHashes();
    var names := GameNames();
    t := new Table<V>(5);
    ok := true;
    for i := 0 to 5
      invariant t.Valid() && fresh(t) && ok && !t.locked && forall n :: n in t.Nodes() ==> fresh(n)
      invariant forall j :: 0 <= j < i ==> Hash(names[j]) in t.contents && t.contents[Hash(names[j])] == funcs[j]
      invariant forall h :: h in t.contents ==> exists j :: 0 <= j < i && h == Hash(names[j])
    {
      ghost var before := t.contents;
      var added, code := t.Add(Some(names[i]), Some(funcs[i]));
      if !added {
        return t, false;
      }
      assert t.contents == before[Hash(names[i]) := funcs[i]];
    }
  }
}
