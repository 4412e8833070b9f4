/** Bucketed MapReduce (mr/worker.go) against the sequential one (main/mrsequential.go). */
module MapReduce {

  newtype byte = x: int | 0 <= x < 256

  type Bytes = seq<byte>

  datatype KeyValue = KeyValue(key: Bytes, value: Bytes)

  type Reducer = (Bytes, seq<Bytes>) -> Bytes

  // ---------------------------------------------------------------- buckets

  /** The 32-bit FNV-1a hash. */
  function Fnv1a(key: Bytes): bv32 {
    if key == [] then 2166136261 else (Fnv1a(key[..|key| - 1]) ^ (key[|key| - 1] as bv32)) * 16777619
  }

  function IHash(key: Bytes): nat {
    (Fnv1a(key) & 0x7fff_ffff) as nat
  }

  /** Which bucket every key goes to. */
  function Hashing(nReduce: nat): Bytes -> nat
    requires nReduce > 0
  {
    key => IHash(key) % nReduce
  }

  /** The records that belong to bucket r, in order. */
  function Chosen(records: seq<KeyValue>, place: Bytes -> nat, r: nat): seq<KeyValue> {
    if records == [] then [] else
      var n := |records| - 1;
      Chosen(records[..n], place, r) + (if place(records[n].key) == r then [records[n]] else [])
  }

  lemma ChosenOneMore(records: seq<KeyValue>, c: KeyValue, place: Bytes -> nat, r: nat)
    ensures Chosen(records + [c], place, r) == Chosen(records, place, r) + (if place(c.key) == r then [c] else [])
  {
    assert (records + [c])[..|records|] == records;
  }

  ghost predicate Spilled(files: seq<seq<KeyValue>>, records: seq<KeyValue>, nReduce: nat)
    requires nReduce > 0
  {
    |files| == nReduce && forall r | 0 <= r < nReduce :: files[r] == Chosen(records, Hashing(nReduce), r)
  }

  /** The intermediate files of one map task: every record goes to the file that the hash of its key names. */
  method MapTask(records: seq<KeyValue>, nReduce: nat) returns (files: seq<seq<KeyValue>>)
    requires nReduce > 0
    ensures Spilled(files, records, nReduce)
  {
    files := seq(nReduce, i => []);
    for i := 0 to |records|
      invariant Spilled(files, records[..i], nReduce)
    {
      var bucket := IHash(records[i].key) % nReduce;
      assert records[..i + 1] == records[..i] + [records[i]];
      forall r | 0 <= r < nReduce
        ensures Chosen(records[..i + 1], Hashing(nReduce), r) == files[r] + (if bucket == r then [records[i]] else [])
      {
        ChosenOneMore(records[..i], records[i], Hashing(nReduce), r);
      }
      files := files[bucket := files[bucket] + [records[i]]];
    }
    assert records[..|records|] == records;
  }

  // ---------------------------------------------------------------- the values of a key

  function ValuesOf(records: seq<KeyValue>, key: Bytes): seq<Bytes> {
    if records == [] then [] else
      var n := |records| - 1;
      ValuesOf(records[..n], key) + (if records[n].key == key then [records[n].value] else [])
  }

  lemma ValuesOneMore(records: seq<KeyValue>, c: KeyValue, key: Bytes)
    ensures ValuesOf(records + [c], key) == ValuesOf(records, key) + (if c.key == key then [c.value] else [])
  {
    assert (records + [c])[..|records|] == records;
  }

  lemma {:induction false} ValuesAppend(a: seq<KeyValue>, b: seq<KeyValue>, key: Bytes)
    ensures ValuesOf(a + b, key) == ValuesOf(a, key) + ValuesOf(b, key)
    decreases |b|
  {
    if b == [] {
      assert a + b == a;
    } else {
      var n := |b| - 1;
      ValuesAppend(a, b[..n], key);
      assert a + b == (a + b[..n]) + [b[n]];
      ValuesOneMore(a + b[..n], b[n], key);
    }
  }

  /** Rearranging the records rearranges the values of every key. */
  lemma {:induction false} ValuesRearranged(a: seq<KeyValue>, b: seq<KeyValue>, key: Bytes)
    requires multiset(a) == multiset(b)
    ensures multiset(ValuesOf(a, key)) == multiset(ValuesOf(b, key))
    decreases |a|
  {
    if a == [] {
      assert |multiset(a)| == |multiset(b)| == |b|;
    } else {
      var n := |a| - 1;
      var p := FindCopy(a, b);
      ValuesRearranged(a[..n], b[..p] + b[p + 1..], key);
      assert a[..n] + a[n + 1..] == a[..n];
      ValuesWithout(a, n, key);
      ValuesWithout(b, p, key);
    }
  }

  lemma FindCopy(a: seq<KeyValue>, b: seq<KeyValue>) returns (p: nat)
    requires a != [] && multiset(a) == multiset(b)
    ensures p < |b| && b[p] == a[|a| - 1] && multiset(a[..|a| - 1]) == multiset(b[..p] + b[p + 1..])
  {
    var n := |a| - 1;
    assert a[n] in multiset(b);
    p :| p < |b| && b[p] == a[n];
    MultisetWithout(a, n);
    assert a[..n] + a[n + 1..] == a[..n];
    MultisetWithout(b, p);
  }

  lemma MultisetWithout<T>(b: seq<T>, p: nat)
    requires p < |b|
    ensures multiset(b[..p] + b[p + 1..]) == multiset(b) - multiset{b[p]}
  {
    assert b == (b[..p] + [b[p]]) + b[p + 1..];
  }

  lemma ValuesWithout(b: seq<KeyValue>, p: nat, key: Bytes)
    requires p < |b|
    ensures multiset(ValuesOf(b, key))
         == multiset(ValuesOf(b[..p] + b[p + 1..], key)) + multiset(if b[p].key == key then [b[p].value] else [])
  {
    assert b == (b[..p] + [b[p]]) + b[p + 1..];
    ValuesAppend(b[..p] + [b[p]], b[p + 1..], key);
    ValuesOneMore(b[..p], b[p], key);
    ValuesAppend(b[..p], b[p + 1..], key);
  }

  lemma {:induction false} NoValues(records: seq<KeyValue>, key: Bytes)
    ensures ValuesOf(records, key) == [] <==> forall i | 0 <= i < |records| :: records[i].key != key
  {
    if records != [] {
      var n := |records| - 1;
      var front := records[..n];
      NoValues(front, key);
      assert forall i | 0 <= i < n :: front[i] == records[i];
      if records[n].key == key {
        assert ValuesOf(records, key) == ValuesOf(front, key) + [records[n].value];
      }
    }
  }

  lemma {:induction false} ChosenValues(records: seq<KeyValue>, place: Bytes -> nat, r: nat, key: Bytes)
    ensures ValuesOf(Chosen(records, place, r), key) == if place(key) == r then ValuesOf(records, key) else []
  {
    if records != [] {
      var n := |records| - 1;
      ChosenValues(records[..n], place, r, key);
      if place(records[n].key) == r {
        ValuesOneMore(Chosen(records[..n], place, r), records[n], key);
      } else {
        assert Chosen(records, place, r) == Chosen(records[..n], place, r);
      }
    }
  }

  // ---------------------------------------------------------------- many files

  function Flatten<T>(ss: seq<seq<T>>): seq<T> {
    if ss == [] then [] else Flatten(ss[..|ss| - 1]) + ss[|ss| - 1]
  }

  /** The files for bucket r of all map tasks hold all values of the keys that belong there, and no others. */
  lemma {:induction false} BucketValues(tasks: seq<seq<KeyValue>>, files: seq<seq<KeyValue>>, place: Bytes -> nat,
                                        r: nat, key: Bytes)
    requires |files| == |tasks| && forall i | 0 <= i < |tasks| :: files[i] == Chosen(tasks[i], place, r)
    ensures ValuesOf(Flatten(files), key) == if place(key) == r then ValuesOf(Flatten(tasks), key) else []
    decreases |tasks|
  {
    if tasks != [] {
      var n := |tasks| - 1;
      BucketValues(tasks[..n], files[..n], place, r, key);
      ChosenValues(tasks[n], place, r, key);
      ValuesAppend(Flatten(files[..n]), files[n], key);
      ValuesAppend(Flatten(tasks[..n]), tasks[n], key);
    }
  }

  // ---------------------------------------------------------------- the output

  /** The reducer looks at the values of a key without regard to their order. */
  ghost predicate OrderFree(f: Reducer) {
    forall key, a, b | multiset(a) == multiset(b) :: f(key, a) == f(key, b)
  }

  ghost predicate DistinctKeys(lines: seq<KeyValue>) {
    forall i, j | 0 <= i < j < |lines| :: lines[i].key != lines[j].key
  }

  /** One line for every key of the records, with what the reducer makes of the values of that key. */
  ghost predicate Reduces(lines: seq<KeyValue>, records: seq<KeyValue>, f: Reducer) {
    && DistinctKeys(lines)
    && (forall i | 0 <= i < |lines| :: IsLine(lines[i], records, f))
    && (forall key :: ValuesOf(records, key) != [] ==> HasLine(lines, key))
  }

  ghost predicate IsLine(line: KeyValue, records: seq<KeyValue>, f: Reducer) {
    ValuesOf(records, line.key) != [] && line.value == f(line.key, ValuesOf(records, line.key))
  }

  ghost predicate HasLine(lines: seq<KeyValue>, key: Bytes) {
    exists i :: 0 <= i < |lines| && lines[i].key == key
  }

  /** The output of one reduce task: the records are grouped by key, and the groups reduced in any order. */
  method ReduceTask(files: seq<seq<KeyValue>>, f: Reducer) returns (lines: seq<KeyValue>)
    ensures Reduces(lines, Flatten(files), f)
  {
    var records := Flatten(files);
    var kva := Group(records);
    lines := [];
    var rest := kva.Keys;
    while rest != {}
      invariant rest <= kva.Keys && Written(lines, kva, f, kva.Keys - rest)
      decreases |rest|
    {
      var key :| key in rest;
      WriteOneMore(lines, kva, f, kva.Keys - rest, key);
      assert kva.Keys - rest + {key} == kva.Keys - (rest - {key});
      lines := lines + [KeyValue(key, f(key, kva[key]))];
      rest := rest - {key};
    }
    assert kva.Keys - rest == kva.Keys;
  }

  /** One line for every one of the keys, with what the reducer makes of its group. */
  ghost predicate Written(lines: seq<KeyValue>, kva: map<Bytes, seq<Bytes>>, f: Reducer, keys: set<Bytes>) {
    && keys <= kva.Keys && DistinctKeys(lines)
    && (forall i | 0 <= i < |lines| :: lines[i].key in keys && lines[i].value == f(lines[i].key, kva[lines[i].key]))
    && (forall key | key in keys :: HasLine(lines, key))
  }

  lemma WriteOneMore(lines: seq<KeyValue>, kva: map<Bytes, seq<Bytes>>, f: Reducer, keys: set<Bytes>, key: Bytes)
    requires Written(lines, kva, f, keys) && key in kva && key !in keys
    ensures Written(lines + [KeyValue(key, f(key, kva[key]))], kva, f, keys + {key})
  {
    var line := KeyValue(key, f(key, kva[key]));
    assert (lines + [line])[|lines|].key == key;
    forall k | k in keys ensures HasLine(lines + [line], k) { LineStays(lines, line, k); }
  }

  lemma LineStays(lines: seq<KeyValue>, line: KeyValue, key: Bytes)
    requires HasLine(lines, key)
    ensures HasLine(lines + [line], key)
  {
    var i :| 0 <= i < |lines| && lines[i].key == key;
    assert (lines + [line])[i].key == key;
  }

  ghost predicate Grouped(records: seq<KeyValue>, kva: map<Bytes, seq<Bytes>>) {
    forall key :: ValuesOf(records, key) == (if key in kva then kva[key] else []) && (key in kva ==> kva[key] != [])
  }

  method Group(records: seq<KeyValue>) returns (kva: map<Bytes, seq<Bytes>>)
    ensures Grouped(records, kva)
  {
    kva := map[];
    for i := 0 to |records|
      invariant Grouped(records[..i], kva)
    {
      GroupOneMore(records[..i], kva, records[i]);
      assert records[..i] + [records[i]] == records[..i + 1];
      var values := if records[i].key in kva then kva[records[i].key] else [];
      kva := kva[records[i].key := values + [records[i].value]];
    }
    assert records[..|records|] == records;
  }

  lemma GroupOneMore(records: seq<KeyValue>, kva: map<Bytes, seq<Bytes>>, c: KeyValue)
    requires Grouped(records, kva)
    ensures Grouped(records + [c], kva[c.key := (if c.key in kva then kva[c.key] else []) + [c.value]])
  {
    forall key
      ensures ValuesOf(records + [c], key) == ValuesOf(records, key) + (if c.key == key then [c.value] else [])
    {
      ValuesOneMore(records, c, key);
    }
  }

  // ---------------------------------------------------------------- the whole run

  /** The output of bucket r: the lines of the keys that belong there. */
  ghost predicate ReducesBucket(lines: seq<KeyValue>, records: seq<KeyValue>, f: Reducer, place: Bytes -> nat, r: nat) {
    && DistinctKeys(lines)
    && (forall i | 0 <= i < |lines| :: IsLine(lines[i], records, f) && place(lines[i].key) == r)
    && (forall key :: ValuesOf(records, key) != [] && place(key) == r ==> HasLine(lines, key))
  }

  lemma BucketIsReduced(lines: seq<KeyValue>, tasks: seq<seq<KeyValue>>, files: seq<seq<KeyValue>>, f: Reducer,
                        place: Bytes -> nat, r: nat)
    requires |files| == |tasks| && forall i | 0 <= i < |tasks| :: files[i] == Chosen(tasks[i], place, r)
    requires Reduces(lines, Flatten(files), f)
    ensures ReducesBucket(lines, Flatten(tasks), f, place, r)
  {
    forall key ensures ValuesOf(Flatten(files), key) == if place(key) == r then ValuesOf(Flatten(tasks), key) else [] {
      BucketValues(tasks, files, place, r, key);
    }
    forall i | 0 <= i < |lines| ensures IsLine(lines[i], Flatten(tasks), f) && place(lines[i].key) == r {
      assert IsLine(lines[i], Flatten(files), f);
    }
  }

  method Run(tasks: seq<seq<KeyValue>>, nReduce: nat, f: Reducer) returns (outputs: seq<seq<KeyValue>>)
    requires nReduce > 0
    ensures |outputs| == nReduce
    ensures forall r: nat | r < nReduce :: ReducesBucket(outputs[r], Flatten(tasks), f, Hashing(nReduce), r)
  {
    var files: seq<seq<seq<KeyValue>>> := [];
    for i := 0 to |tasks|
      invariant |files| == i
      invariant forall k: nat | k < i :: Spilled(files[k], tasks[k], nReduce)
    {
      var file := MapTask(tasks[i], nReduce);
      files := files + [file];
    }
    outputs := [];
    for r := 0 to nReduce
      invariant |outputs| == r
      invariant forall q: nat | q < r :: ReducesBucket(outputs[q], Flatten(tasks), f, Hashing(nReduce), q)
    {
      forall k: nat | k < |tasks|
        ensures |files[k]| == nReduce && files[k][r] == Chosen(tasks[k], Hashing(nReduce), r)
      {
        assert Spilled(files[k], tasks[k], nReduce);
      }
      var bucket := seq(|tasks|, i requires 0 <= i < |tasks| => files[i][r]);
      var lines := ReduceTask(bucket, f);
      BucketIsReduced(lines, tasks, bucket, f, Hashing(nReduce), r);
      outputs := outputs + [lines];
    }
  }

  /** Of the first m buckets together: the lines of all keys that belong to them. */
  ghost predicate ReducesBelow(lines: seq<KeyValue>, records: seq<KeyValue>, f: Reducer, place: Bytes -> nat, m: nat) {
    && DistinctKeys(lines)
    && (forall i | 0 <= i < |lines| :: IsLine(lines[i], records, f) && place(lines[i].key) < m)
    && (forall key :: ValuesOf(records, key) != [] && place(key) < m ==> HasLine(lines, key))
  }

  lemma {:induction false} FirstBuckets(outputs: seq<seq<KeyValue>>, records: seq<KeyValue>, f: Reducer,
                                        place: Bytes -> nat, m: nat)
    requires m <= |outputs| && forall r: nat | r < |outputs| :: ReducesBucket(outputs[r], records, f, place, r)
    ensures ReducesBelow(Flatten(outputs[..m]), records, f, place, m)
  {
    if m > 0 {
      FirstBuckets(outputs, records, f, place, m - 1);
      assert outputs[..m][..m - 1] == outputs[..m - 1];
      assert ReducesBucket(outputs[m - 1], records, f, place, m - 1);
      OneMoreBucket(Flatten(outputs[..m - 1]), outputs[m - 1], records, f, place, m - 1);
    }
  }

  lemma OneMoreBucket(lines: seq<KeyValue>, more: seq<KeyValue>, records: seq<KeyValue>, f: Reducer,
                      place: Bytes -> nat, m: nat)
    requires ReducesBelow(lines, records, f, place, m) && ReducesBucket(more, records, f, place, m)
    ensures ReducesBelow(lines + more, records, f, place, m + 1)
  {
    forall i | 0 <= i < |lines + more|
      ensures IsLine((lines + more)[i], records, f) && place((lines + more)[i].key) < m + 1
    {}
    forall key | ValuesOf(records, key) != [] && place(key) < m + 1 ensures HasLine(lines + more, key) {
      if place(key) < m {
        var i :| 0 <= i < |lines| && lines[i].key == key;
        assert (lines + more)[i].key == key;
      } else {
        assert HasLine(more, key);
        var i :| 0 <= i < |more| && more[i].key == key;
        assert (lines + more)[|lines| + i].key == key;
      }
    }
  }

  /** All buckets together reduce every key of the input once. */
  lemma BucketsReduceAll(outputs: seq<seq<KeyValue>>, records: seq<KeyValue>, f: Reducer, nReduce: nat)
    requires nReduce > 0 && |outputs| == nReduce
    requires forall r: nat | r < nReduce :: ReducesBucket(outputs[r], records, f, Hashing(nReduce), r)
    ensures Reduces(Flatten(outputs), records, f)
  {
    FirstBuckets(outputs, records, f, Hashing(nReduce), nReduce);
    assert outputs[..nReduce] == outputs;
    forall key ensures Hashing(nReduce)(key) < nReduce {}
  }

  // ---------------------------------------------------------------- the sequential reference

  /** The order of Go's strings. */
  predicate Less(a: Bytes, b: Bytes) {
    if b == [] then false
    else if a == [] then true
    else if a[0] != b[0] then a[0] < b[0]
    else Less(a[1..], b[1..])
  }

  lemma {:induction false} NeitherLess(a: Bytes, b: Bytes)
    requires !Less(a, b) && !Less(b, a)
    ensures a == b
  {
    if a != [] && b != [] {
      NeitherLess(a[1..], b[1..]);
      assert a == [a[0]] + a[1..] && b == [b[0]] + b[1..];
    }
  }

  lemma {:induction false} AtMostTransitive(a: Bytes, b: Bytes, c: Bytes)
    requires !Less(b, a) && !Less(c, b)
    ensures !Less(c, a)
  {
    if a != [] && b != [] && c != [] && a[0] == b[0] == c[0] { AtMostTransitive(a[1..], b[1..], c[1..]); }
  }

  ghost predicate SortedByKey(records: seq<KeyValue>) {
    forall i, j | 0 <= i < j < |records| :: !Less(records[j].key, records[i].key)
  }

  /** Any sort will do: only that the result is in order and holds the same records is used of it. */
  method SortByKey(records: seq<KeyValue>) returns (sorted: seq<KeyValue>)
    ensures SortedByKey(sorted) && multiset(sorted) == multiset(records)
  {
    sorted := [];
    for i := 0 to |records|
      invariant SortedByKey(sorted) && multiset(sorted) == multiset(records[..i])
    {
      sorted := InsertByKey(sorted, records[i]);
      assert records[..i + 1] == records[..i] + [records[i]];
    }
    assert records[..|records|] == records;
  }

  method InsertByKey(sorted: seq<KeyValue>, c: KeyValue) returns (r: seq<KeyValue>)
    requires SortedByKey(sorted)
    ensures SortedByKey(r) && multiset(r) == multiset(sorted) + multiset{c}
  {
    var j := |sorted|;
    while j > 0 && Less(c.key, sorted[j - 1].key)
      invariant 0 <= j <= |sorted| && forall k | j <= k < |sorted| :: Less(c.key, sorted[k].key)
    {
      j := j - 1;
    }
    r := sorted[..j] + [c] + sorted[j..];
    InsertedContents(sorted, c, j);
    InsertKeepsSorted(sorted, c, j);
  }

  lemma InsertedContents(sorted: seq<KeyValue>, c: KeyValue, j: nat)
    requires j <= |sorted|
    ensures multiset(sorted[..j] + [c] + sorted[j..]) == multiset(sorted) + multiset{c}
  {
    assert sorted == sorted[..j] + sorted[j..];
  }

  lemma {:induction false} LessIsAsymmetric(a: Bytes, b: Bytes)
    requires Less(a, b)
    ensures !Less(b, a)
  {
    if a != [] && a[0] == b[0] { LessIsAsymmetric(a[1..], b[1..]); }
  }

  lemma InsertKeepsSorted(sorted: seq<KeyValue>, c: KeyValue, j: nat)
    requires SortedByKey(sorted) && j <= |sorted| && (forall k | j <= k < |sorted| :: Less(c.key, sorted[k].key))
    requires j > 0 ==> !Less(c.key, sorted[j - 1].key)
    ensures SortedByKey(sorted[..j] + [c] + sorted[j..])
  {
    forall k | j <= k < |sorted| ensures !Less(sorted[k].key, c.key) { LessIsAsymmetric(c.key, sorted[k].key); }
    forall k | 0 <= k < j ensures !Less(c.key, sorted[k].key) {
      if k < j - 1 { AtMostTransitive(sorted[k].key, sorted[j - 1].key, c.key); }
    }
  }

  /** The values of a stretch of records. */
  function Values(records: seq<KeyValue>): seq<Bytes> {
    seq(|records|, i requires 0 <= i < |records| => records[i].value)
  }

  lemma {:induction false} OneKeyOnly(run: seq<KeyValue>, key: Bytes, k: Bytes)
    requires forall i | 0 <= i < |run| :: run[i].key == key
    ensures ValuesOf(run, k) == if k == key then Values(run) else []
  {
    if run != [] {
      var n := |run| - 1;
      OneKeyOnly(run[..n], key, k);
      assert run == run[..n] + [run[n]];
      ValuesOneMore(run[..n], run[n], k);
      assert Values(run) == Values(run[..n]) + [run[n].value];
    }
  }

  lemma KeyIsNew(s: seq<KeyValue>, i: nat)
    requires SortedByKey(s) && i < |s| && (i > 0 ==> s[i - 1].key != s[i].key)
    ensures ValuesOf(s[..i], s[i].key) == []
  {
    forall p | 0 <= p < i ensures s[p].key != s[i].key {
      if p < i - 1 && s[p].key == s[i].key { NeitherLess(s[i - 1].key, s[i].key); }
    }
    NoValues(s[..i], s[i].key);
  }

  /** One more run of equal keys gives one more line. */
  lemma RunGivesLine(lines: seq<KeyValue>, s: seq<KeyValue>, i: nat, j: nat, f: Reducer)
    requires SortedByKey(s) && i < j <= |s| && (i > 0 ==> s[i - 1].key != s[i].key)
    requires Reduces(lines, s[..i], f) && forall k | i <= k < j :: s[k].key == s[i].key
    ensures Reduces(lines + [KeyValue(s[i].key, f(s[i].key, Values(s[i..j])))], s[..j], f)
  {
    KeyIsNew(s, i);
    forall k ensures ValuesOf(s[..j], k) == if k == s[i].key then Values(s[i..j]) else ValuesOf(s[..i], k) {
      RunValues(s, i, j, k);
    }
    assert |Values(s[i..j])| > 0;
    NewLine(lines, s[..i], s[..j], f, s[i].key, Values(s[i..j]));
  }

  lemma RunValues(s: seq<KeyValue>, i: nat, j: nat, k: Bytes)
    requires i < j <= |s| && (forall n | i <= n < j :: s[n].key == s[i].key) && ValuesOf(s[..i], s[i].key) == []
    ensures ValuesOf(s[..j], k) == if k == s[i].key then Values(s[i..j]) else ValuesOf(s[..i], k)
  {
    assert s[..j] == s[..i] + s[i..j];
    ValuesAppend(s[..i], s[i..j], k);
    OneKeyOnly(s[i..j], s[i].key, k);
  }

  lemma NewLine(lines: seq<KeyValue>, before: seq<KeyValue>, after: seq<KeyValue>, f: Reducer, key: Bytes,
                values: seq<Bytes>)
    requires Reduces(lines, before, f) && ValuesOf(before, key) == [] && values != []
    requires forall k :: ValuesOf(after, k) == if k == key then values else ValuesOf(before, k)
    ensures Reduces(lines + [KeyValue(key, f(key, values))], after, f)
  {
    var line := KeyValue(key, f(key, values));
    forall n | 0 <= n < |lines|
      ensures lines[n].key != key && IsLine(lines[n], after, f)
    {
      assert IsLine(lines[n], before, f);
    }
    forall k | ValuesOf(after, k) != [] ensures HasLine(lines + [line], k) {
      if k == key { assert (lines + [line])[|lines|].key == key; } else { LineStays(lines, line, k); }
    }
  }

  /** Sort all records by key and reduce every run of equal keys. */
  method Sequential(records: seq<KeyValue>, f: Reducer) returns (lines: seq<KeyValue>)
    requires OrderFree(f)
    ensures Reduces(lines, records, f)
  {
    var intermediate := SortByKey(records);
    lines := [];
    var i := 0;
    while i < |intermediate|
      invariant 0 <= i <= |intermediate| && Reduces(lines, intermediate[..i], f)
      invariant 0 < i < |intermediate| ==> intermediate[i - 1].key != intermediate[i].key
    {
      var j := i + 1;
      while j < |intermediate| && intermediate[j].key == intermediate[i].key
        invariant i < j <= |intermediate| && forall k | i <= k < j :: intermediate[k].key == intermediate[i].key
      {
        j := j + 1;
      }
      var values := [];
      for k := i to j
        invariant values == Values(intermediate[i..k])
      {
        assert Values(intermediate[i..k + 1]) == Values(intermediate[i..k]) + [intermediate[k].value];
        values := values + [intermediate[k].value];
      }
      RunGivesLine(lines, intermediate, i, j, f);
      lines := lines + [KeyValue(intermediate[i].key, f(intermediate[i].key, values))];
      i := j;
    }
    assert intermediate[..i] == intermediate;
    ReducesRearranged(lines, intermediate, records, f);
  }

  lemma ReducesRearranged(lines: seq<KeyValue>, a: seq<KeyValue>, b: seq<KeyValue>, f: Reducer)
    requires OrderFree(f) && multiset(a) == multiset(b) && Reduces(lines, a, f)
    ensures Reduces(lines, b, f)
  {
    forall key
      ensures multiset(ValuesOf(a, key)) == multiset(ValuesOf(b, key)) && |ValuesOf(a, key)| == |ValuesOf(b, key)|
    {
      ValuesRearranged(a, b, key);
      assert |multiset(ValuesOf(a, key))| == |multiset(ValuesOf(b, key))|;
    }
    forall i | 0 <= i < |lines| ensures IsLine(lines[i], b, f) { assert IsLine(lines[i], a, f); }
  }

  // ---------------------------------------------------------------- both give the same lines

  lemma {:induction false} CountOfDistinct(lines: seq<KeyValue>, x: KeyValue)
    requires DistinctKeys(lines)
    ensures multiset(lines)[x] == if x in lines then 1 else 0
  {
    if lines != [] {
      var n := |lines| - 1;
      CountOfDistinct(lines[..n], x);
      assert lines == lines[..n] + [lines[n]];
    }
  }

  lemma LineInBoth(a: seq<KeyValue>, b: seq<KeyValue>, records: seq<KeyValue>, f: Reducer, x: KeyValue)
    requires Reduces(a, records, f) && Reduces(b, records, f) && x in a
    ensures x in b
  {
    var i :| 0 <= i < |a| && a[i] == x;
    assert IsLine(a[i], records, f) && HasLine(b, x.key);
    var j :| 0 <= j < |b| && b[j].key == x.key;
    assert IsLine(b[j], records, f);
  }

  /** What reduces the same records is the same but for the order of its lines. */
  lemma SameLines(a: seq<KeyValue>, b: seq<KeyValue>, records: seq<KeyValue>, f: Reducer)
    requires Reduces(a, records, f) && Reduces(b, records, f)
    ensures multiset(a) == multiset(b)
  {
    forall x ensures multiset(a)[x] == multiset(b)[x] {
      CountOfDistinct(a, x);
      CountOfDistinct(b, x);
      if x in a { LineInBoth(a, b, records, f, x); }
      if x in b { LineInBoth(b, a, records, f, x); }
    }
  }

  /** The buckets of a parallel run together hold exactly the lines of the sequential run, over the input files in
      any order, for every number of buckets and every reducer that does not look at the order of the values. */
  lemma ParallelIsSequential(tasks: seq<seq<KeyValue>>, nReduce: nat, f: Reducer, outputs: seq<seq<KeyValue>>,
                             records: seq<KeyValue>, lines: seq<KeyValue>)
    requires nReduce > 0 && OrderFree(f) && multiset(records) == multiset(Flatten(tasks))
    requires |outputs| == nReduce
      && forall r: nat | r < nReduce :: ReducesBucket(outputs[r], Flatten(tasks), f, Hashing(nReduce), r)
    requires Reduces(lines, records, f)
    ensures multiset(Flatten(outputs)) == multiset(lines)
  {
    BucketsReduceAll(outputs, Flatten(tasks), f, nReduce);
    ReducesRearranged(lines, records, Flatten(tasks), f);
    SameLines(Flatten(outputs), lines, Flatten(tasks), f);
  }
}
