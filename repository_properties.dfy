/** What the store's operations guarantee, stated over the functions that
    the ProductRepoJson methods are proved to agree with. */
module RepositoryProperties {
  import opened Wrappers
  import opened Decimal
  import opened Models
  import opened Json
  import opened FileSystem
  import opened Errors
  import opened Repository

  // ---------------------------------------------------------------- file names

  /** Distinct ids have distinct files. */
  lemma FileNameInjective(a: int, b: int)
    ensures FileName(a) == FileName(b) <==> a == b
  {
    if FileName(a) == FileName(b) {
      var s := FileName(a);
      assert IntToString(a) == s[..|s| - 5];
      assert IntToString(b) == s[..|s| - 5];
      IntToStringInjective(a, b);
    }
  }

  /** A name ending in ".json" has that extension. */
  lemma JsonSuffixIsExt(s: string)
    requires HasSuffix(s, ".json")
    ensures Ext(s) == ".json"
  {
    var k := |s|;
    var tail := s[k - 5..];
    assert tail == ".json";
    assert tail[4] == 'n' && tail[3] == 'o' && tail[2] == 's' && tail[1] == 'j' && tail[0] == '.';
    SkipLetter(s, k);
    SkipLetter(s, k - 1);
    SkipLetter(s, k - 2);
    SkipLetter(s, k - 3);
  }

  lemma SkipLetter(s: string, i: nat)
    requires 0 < i <= |s| && s[i - 1] != '.' && s[i - 1] != '/'
    ensures ExtBefore(s, i) == ExtBefore(s, i - 1)
  {
  }

  /** Every record file has the extension LoadProducts looks for. */
  lemma FileNameIsJson(id: int)
    ensures Ext(FileName(id)) == ".json"
  {
    var s := FileName(id);
    assert s[|s| - 5..] == ".json";
    JsonSuffixIsExt(s);
  }

  // ---------------------------------------------------------------- reads

  /** The entries LoadProducts reads are exactly the selected ones, and a
      sorted listing gives them in sorted order. */
  lemma {:induction false} CandidatesMeaning(fs: FsState, names: seq<string>)
    ensures forall n :: n in Candidates(fs, names) <==> n in names && Selected(fs, n)
    ensures StrictlySorted(names) ==> StrictlySorted(Candidates(fs, names))
    decreases |names|
  {
    if names != [] {
      var rest := names[1..];
      CandidatesMeaning(fs, rest);
      forall n | n in names
        ensures n == names[0] || n in rest
      {
        var j :| 0 <= j < |names| && names[j] == n;
        if j > 0 {
          assert rest[j - 1] == n;
        }
      }
      if StrictlySorted(names) {
        var c := Candidates(fs, names);
        var cr := Candidates(fs, rest);
        assert StrictlySorted(rest) by {
          forall i, j | 0 <= i < j < |rest|
            ensures NameLess(rest[i], rest[j])
          {
            assert rest[i] == names[i + 1] && rest[j] == names[j + 1];
          }
        }
        if Selected(fs, names[0]) {
          assert c == [names[0]] + cr;
          forall j | 0 <= j < |cr|
            ensures NameLess(names[0], cr[j])
          {
            assert cr[j] in rest;
            var k :| 0 <= k < |rest| && rest[k] == cr[j];
            assert names[k + 1] == cr[j];
          }
          forall i, j | 0 <= i < j < |c|
            ensures NameLess(c[i], c[j])
          {
            if i > 0 {
              assert c[i] == cr[i - 1] && c[j] == cr[j - 1];
            } else {
              assert c[j] == cr[j - 1];
            }
          }
        } else {
          assert c == cr;
        }
      }
    }
  }

  /** LoadProducts: nothing when the directory is missing; a listing failure
      otherwise reported as such; and then either every selected entry
      decoded, one product per entry in listing order, or the error of the
      first selected entry that cannot be read or decoded — never a part of
      the list. */
  lemma LoadAllMeaning(fs: FsState, dir: string, listing: seq<string>)
    requires IsListing(listing, fs.entries)
    ensures var r := LoadAll(fs, dir, listing);
            var c := Candidates(fs, listing);
      && (forall n :: n in c <==> n in fs.entries && Selected(fs, n))
      && StrictlySorted(c)
      && (!fs.dirExists ==> r == Ok([]))
      && (fs.dirExists && fs.listFault.Some? ==>
            r == Err(ListFailure(dir, PathError("open", Failed(fs.listFault.value)))))
      && (fs.dirExists && fs.listFault.None? ==>
            && (r.Ok? <==> forall i :: 0 <= i < |c| ==> ParseFile(fs, dir, c[i]).Ok?)
            && (r.Ok? ==> |r.value| == |c| && forall i :: 0 <= i < |c| ==> ParseFile(fs, dir, c[i]) == Ok(r.value[i]))
            && (r.Err? ==> exists k :: 0 <= k < |c| && ParseFile(fs, dir, c[k]) == Err(r.error) &&
                                       forall j :: 0 <= j < k ==> ParseFile(fs, dir, c[j]).Ok?))
  {
    CandidatesMeaning(fs, listing);
    CollectAllMeaning(Candidates(fs, listing), Parser(fs, dir));
  }

  /** GetProductByID: NotFound exactly when the file is missing (and not
      failing for another reason); the stored product exactly when the file
      holds one. */
  lemma LookupMeaning(fs: FsState, dir: string, id: int)
    ensures var name := FileName(id);
            var r := Lookup(fs, dir, id);
      && (r == Err(NotFound(id)) <==> name !in fs.readFaults && !Present(fs, name))
      && (r.Err? ==> r.error.NotFound? || r.error.StorageError?)
      && (forall p :: r == Ok(p) <==>
            name !in fs.readFaults && Present(fs, name) && fs.entries[name] == File(Document(p)))
  {
  }

  /** CompareProducts: on success one product per requested id, in request
      order, repeats included; otherwise the first failing lookup's error. */
  lemma CompareAllMeaning(fs: FsState, dir: string, ids: seq<int>)
    ensures var r := CompareAll(fs, dir, ids);
      && (r.Ok? <==> forall i :: 0 <= i < |ids| ==> Lookup(fs, dir, ids[i]).Ok?)
      && (r.Ok? ==> |r.value| == |ids| && forall i :: 0 <= i < |ids| ==> Lookup(fs, dir, ids[i]) == Ok(r.value[i]))
      && (r.Err? ==> exists k :: 0 <= k < |ids| && Lookup(fs, dir, ids[k]) == Err(r.error) &&
                                 forall j :: 0 <= j < k ==> Lookup(fs, dir, ids[j]).Ok?)
  {
    CollectAllMeaning(ids, Finder(fs, dir));
  }

  // ---------------------------------------------------------------- writes

  /** One loop iteration. It writes the encoded product to its own file and
      changes nothing else; or it stops with "already exists" exactly when
      SaveProducts finds the file present, with a storage error otherwise,
      having changed at most that one file (a write that fails after the
      open leaves it truncated or complete). */
  lemma StepMeaning(fs: FsState, dir: string, p: Product, mode: WriteMode)
    ensures var name := FileName(p.id);
      match Step(fs, dir, p, mode)
      case Wrote(next) =>
        && next == fs.(entries := fs.entries[name := File(Document(p))])
        && fs.dirExists && name !in fs.writeFaults
        && !(mode == Create && name !in fs.statFaults && Present(fs, name))
      case Stopped(after, e) =>
        && (e.AlreadyExists? <==> mode == Create && name !in fs.statFaults && Present(fs, name))
        && (e.AlreadyExists? ==> e.id == p.id && after == fs)
        && (e.AlreadyExists? || e.StorageError?)
        && after == fs.(entries := after.entries)
        && after.entries - {name} == fs.entries - {name}
        && (after != fs ==>
              && fs.dirExists && name in fs.writeFaults && name in after.entries
              && (after.entries[name] == File(Malformed(TruncatedJson)) || after.entries[name] == File(Document(p))))
  {
  }

  /** SaveProducts and UpdateProducts stop at the first failure and undo
      nothing: the products before it are written, in order; the product at
      that index fails, from that state, with the error reported, and the
      directory is as that failure leaves it — every entry but that
      product's own file as it was. */
  lemma RunBatchWritesPrefix(fs: FsState, dir: string, ps: seq<Product>, mode: WriteMode)
    ensures var out := RunBatch(fs, dir, ps, mode);
            var mid := fs.(entries := Stored(fs.entries, ps[..out.written]));
      && (out.status == Success ==> out.fs == mid)
      && (out.status.Failure? ==>
            var name := FileName(ps[out.written].id);
            && Step(mid, dir, ps[out.written], mode) == Stopped(out.fs, out.status.error)
            && out.fs == mid.(entries := out.fs.entries)
            && out.fs.entries - {name} == mid.entries - {name})
      && (out.written > 0 ==> fs.dirExists)
      && (forall i :: 0 <= i < out.written ==> FileName(ps[i].id) !in fs.writeFaults)
  {
    var out := RunBatch(fs, dir, ps, mode);
    BatchState(fs, dir, ps, mode);
    BatchFailure(fs, dir, ps, mode);
    BatchWritable(fs, dir, ps, mode);
    assert out.status == Success ==> ps[..out.written] == ps;
    if out.status.Failure? {
      StepMeaning(fs.(entries := Stored(fs.entries, ps[..out.written])), dir, ps[out.written], mode);
    }
  }

  lemma {:induction false} BatchState(fs: FsState, dir: string, ps: seq<Product>, mode: WriteMode)
    ensures var out := RunBatch(fs, dir, ps, mode);
      out.status == Success ==> out.fs == fs.(entries := Stored(fs.entries, ps))
    decreases |ps|
  {
    if ps != [] && Step(fs, dir, ps[0], mode).Wrote? {
      var next := Step(fs, dir, ps[0], mode).next;
      StepWrites(fs, dir, ps[0], mode);
      BatchState(next, dir, ps[1..], mode);
    }
  }

  lemma {:induction false} BatchFailure(fs: FsState, dir: string, ps: seq<Product>, mode: WriteMode)
    ensures var out := RunBatch(fs, dir, ps, mode);
      out.status.Failure? ==>
        Step(fs.(entries := Stored(fs.entries, ps[..out.written])), dir, ps[out.written], mode) == Stopped(out.fs, out.status.error)
    decreases |ps|
  {
    if ps == [] || Step(fs, dir, ps[0], mode).Stopped? {
      assert ps[..0] == [];
    } else {
      var next := Step(fs, dir, ps[0], mode).next;
      StepWrites(fs, dir, ps[0], mode);
      BatchFailure(next, dir, ps[1..], mode);
      var inner := RunBatch(next, dir, ps[1..], mode);
      if inner.status.Failure? {
        StoredCons(fs.entries, ps, inner.written + 1);
        assert ps[inner.written + 1] == ps[1..][inner.written];
      }
    }
  }

  /** A step that writes: the directory exists, SaveProducts did not find
      the file, and the state afterwards differs only in that file. */
  lemma StepWrites(fs: FsState, dir: string, p: Product, mode: WriteMode)
    requires Step(fs, dir, p, mode).Wrote?
    ensures Step(fs, dir, p, mode).next == fs.(entries := fs.entries[FileName(p.id) := File(Document(p))])
    ensures fs.dirExists
    ensures mode == Create ==> !(FileName(p.id) !in fs.statFaults && Present(fs, FileName(p.id)))
  {
  }

  lemma {:induction false} BatchWritable(fs: FsState, dir: string, ps: seq<Product>, mode: WriteMode)
    ensures var out := RunBatch(fs, dir, ps, mode);
      && (out.written > 0 ==> fs.dirExists)
      && (forall i :: 0 <= i < out.written ==> FileName(ps[i].id) !in fs.writeFaults)
    decreases |ps|
  {
    if ps != [] && Step(fs, dir, ps[0], mode).Wrote? {
      var next := Step(fs, dir, ps[0], mode).next;
      StepMeaning(fs, dir, ps[0], mode);
      BatchWritable(next, dir, ps[1..], mode);
      assert forall i :: 0 < i < |ps| ==> ps[i] == ps[1..][i - 1];
    }
  }

  lemma StoredCons(entries: map<string, Node>, ps: seq<Product>, k: nat)
    requires 0 < k <= |ps|
    ensures Stored(entries, ps[..k]) == Stored(entries[FileName(ps[0].id) := File(Document(ps[0]))], ps[1..][..k - 1])
  {
    assert ps[..k][1..] == ps[1..][..k - 1];
  }

  /** A name no product of the batch maps to keeps its entry. */
  lemma {:induction false} StoredUntouched(entries: map<string, Node>, ps: seq<Product>, n: string)
    requires forall i :: 0 <= i < |ps| ==> FileName(ps[i].id) != n
    ensures n in Stored(entries, ps) <==> n in entries
    ensures n in entries ==> Stored(entries, ps)[n] == entries[n]
    decreases |ps|
  {
    if ps != [] {
      var rest := ps[1..];
      assert forall i :: 0 <= i < |rest| ==> rest[i] == ps[i + 1];
      StoredUntouched(entries[FileName(ps[0].id) := File(Document(ps[0]))], rest, n);
    }
  }

  /** The last write of an id wins. */
  lemma {:induction false} StoredLast(entries: map<string, Node>, ps: seq<Product>, j: nat)
    requires j < |ps|
    requires forall i :: j < i < |ps| ==> ps[i].id != ps[j].id
    ensures FileName(ps[j].id) in Stored(entries, ps)
    ensures Stored(entries, ps)[FileName(ps[j].id)] == File(Document(ps[j]))
    decreases |ps|
  {
    var rest := ps[1..];
    var next := entries[FileName(ps[0].id) := File(Document(ps[0]))];
    if j == 0 {
      forall i | 0 <= i < |rest|
        ensures FileName(rest[i].id) != FileName(ps[0].id)
      {
        assert rest[i] == ps[i + 1];
        FileNameInjective(rest[i].id, ps[0].id);
      }
      StoredUntouched(next, rest, FileName(ps[0].id));
    } else {
      assert forall i :: j - 1 < i < |rest| ==> rest[i] == ps[i + 1];
      StoredLast(next, rest, j - 1);
    }
  }

  /** After a successful SaveProducts or UpdateProducts, looking up an id of
      the batch gives the last product written with that id. */
  lemma ReadBackAfterBatch(fs: FsState, dir: string, ps: seq<Product>, mode: WriteMode, j: nat)
    requires RunBatch(fs, dir, ps, mode).status == Success
    requires j < |ps|
    requires forall i :: j < i < |ps| ==> ps[i].id != ps[j].id
    requires FileName(ps[j].id) !in fs.readFaults
    ensures Lookup(RunBatch(fs, dir, ps, mode).fs, dir, ps[j].id) == Ok(ps[j])
  {
    var out := RunBatch(fs, dir, ps, mode);
    RunBatchWritesPrefix(fs, dir, ps, mode);
    assert ps[..out.written] == ps;
    StoredLast(fs.entries, ps, j);
  }

  /** After a successful SaveProducts or UpdateProducts, a LoadProducts that
      goes through returns every product of the batch (the last one written
      for each id). */
  lemma SavedAreLoaded(fs: FsState, dir: string, ps: seq<Product>, mode: WriteMode, listing: seq<string>, j: nat)
    requires RunBatch(fs, dir, ps, mode).status == Success
    requires IsListing(listing, RunBatch(fs, dir, ps, mode).fs.entries)
    requires LoadAll(RunBatch(fs, dir, ps, mode).fs, dir, listing).Ok?
    requires j < |ps|
    requires forall i :: j < i < |ps| ==> ps[i].id != ps[j].id
    ensures ps[j] in LoadAll(RunBatch(fs, dir, ps, mode).fs, dir, listing).value
  {
    var out := RunBatch(fs, dir, ps, mode);
    var name := FileName(ps[j].id);
    RunBatchWritesPrefix(fs, dir, ps, mode);
    assert ps[..out.written] == ps;
    StoredLast(fs.entries, ps, j);
    FileNameIsJson(ps[j].id);
    LoadAllMeaning(out.fs, dir, listing);
    var c := Candidates(out.fs, listing);
    assert name in c;
    var k :| 0 <= k < |c| && c[k] == name;
    var r := LoadAll(out.fs, dir, listing).value;
    assert ParseFile(out.fs, dir, name) == Ok(r[k]);
  }

  /** A batch writes only the files of its own ids: every other file reads
      the same afterwards, whether the batch goes through or not. */
  lemma {:induction false} BatchLeavesOthers(fs: FsState, dir: string, ps: seq<Product>, mode: WriteMode, id: int)
    requires forall i :: 0 <= i < |ps| ==> ps[i].id != id
    ensures Lookup(RunBatch(fs, dir, ps, mode).fs, dir, id) == Lookup(fs, dir, id)
    decreases |ps|
  {
    if ps != [] {
      var name := FileName(ps[0].id);
      StepMeaning(fs, dir, ps[0], mode);
      FileNameInjective(ps[0].id, id);
      match Step(fs, dir, ps[0], mode)
      case Stopped(after, _) =>
        LookupIgnores(after, fs, dir, id, name);
      case Wrote(next) =>
        assert next.entries - {name} == fs.entries - {name};
        LookupIgnores(next, fs, dir, id, name);
        assert forall i :: 0 <= i < |ps| - 1 ==> ps[1..][i] == ps[i + 1];
        BatchLeavesOthers(next, dir, ps[1..], mode, id);
    }
  }

  /** A batch of records whose files all exist adds no entry, whether it
      goes through or not. */
  lemma {:induction false} BatchKeysWithin(fs: FsState, dir: string, ps: seq<Product>, mode: WriteMode)
    requires forall i :: 0 <= i < |ps| ==> FileName(ps[i].id) in fs.entries
    ensures RunBatch(fs, dir, ps, mode).fs.entries.Keys == fs.entries.Keys
    decreases |ps|
  {
    if ps != [] {
      var name := FileName(ps[0].id);
      StepMeaning(fs, dir, ps[0], mode);
      match Step(fs, dir, ps[0], mode)
      case Stopped(after, _) =>
        assert forall n :: n in after.entries <==> n in after.entries - {name} || n == name;
        assert forall n :: n in fs.entries <==> n in fs.entries - {name} || n == name;
      case Wrote(next) =>
        assert next.entries.Keys == fs.entries.Keys;
        assert forall i :: 0 <= i < |ps| - 1 ==> ps[1..][i] == ps[i + 1];
        BatchKeysWithin(next, dir, ps[1..], mode);
    }
  }

  /** A change to one file other than record `id`'s does not change what
      looking `id` up gives. */
  lemma LookupIgnores(a: FsState, b: FsState, dir: string, id: int, other: string)
    requires a == b.(entries := a.entries) && a.entries - {other} == b.entries - {other}
    requires other != FileName(id)
    ensures Lookup(a, dir, id) == Lookup(b, dir, id)
  {
    var n := FileName(id);
    assert n in a.entries <==> n in a.entries - {other};
    assert n in b.entries <==> n in b.entries - {other};
    assert n in a.entries ==> a.entries[n] == (a.entries - {other})[n];
    assert n in b.entries ==> b.entries[n] == (b.entries - {other})[n];
  }

  /** SaveProducts never replaces an entry that is already there and can be
      examined. */
  lemma {:induction false} SaveKeepsExisting(fs: FsState, dir: string, ps: seq<Product>, n: string)
    requires n in fs.entries && n !in fs.statFaults
    ensures n in RunBatch(fs, dir, ps, Create).fs.entries
    ensures RunBatch(fs, dir, ps, Create).fs.entries[n] == fs.entries[n]
    decreases |ps|
  {
    if ps != [] {
      StepMeaning(fs, dir, ps[0], Create);
      match Step(fs, dir, ps[0], Create)
      case Stopped(after, _) =>
        assert n in after.entries - {FileName(ps[0].id)} || n == FileName(ps[0].id);
      case Wrote(next) =>
        SaveKeepsExisting(next, dir, ps[1..], n);
    }
  }

  /** SaveProducts goes by `os.Stat` succeeding: when the stat of a file
      fails for another reason than its absence, it writes over the file as
      UpdateProducts would. */
  lemma SaveOverwritesWhenStatFails(fs: FsState, dir: string, p: Product)
    requires FileName(p.id) in fs.statFaults
    ensures Step(fs, dir, p, Create) == Step(fs, dir, p, Overwrite)
    ensures var name := FileName(p.id);
      Present(fs, name) && fs.entries[name].File? && name !in fs.writeFaults &&
      IsFinite(p.price) && IsFinite(p.rating)
      ==> Step(fs, dir, p, Create) == Wrote(fs.(entries := fs.entries[name := File(Document(p))]))
  {
  }

  /** SaveProducts stops, with "already exists", no later than the first
      product whose file is present and can be examined. */
  lemma {:induction false} SaveStopsAtExisting(fs: FsState, dir: string, ps: seq<Product>, j: nat)
    requires j < |ps|
    requires FileName(ps[j].id) !in fs.statFaults && Present(fs, FileName(ps[j].id))
    ensures RunBatch(fs, dir, ps, Create).written <= j
    ensures RunBatch(fs, dir, ps, Create).written == j ==>
              RunBatch(fs, dir, ps, Create).status == Failure(AlreadyExists(ps[j].id))
    decreases |ps|
  {
    if Step(fs, dir, ps[0], Create).Wrote? {
      var next := Step(fs, dir, ps[0], Create).next;
      StepWrites(fs, dir, ps[0], Create);
      assert j != 0;
      assert ps[1..][j - 1] == ps[j];
      SaveStopsAtExisting(next, dir, ps[1..], j - 1);
      assert RunBatch(fs, dir, ps, Create) == Advance(RunBatch(next, dir, ps[1..], Create), 1);
    }
  }

  /** A SaveProducts batch that repeats an id fails at or before its second
      occurrence, unless examining that file fails. */
  lemma {:induction false} SaveRefusesRepeat(fs: FsState, dir: string, ps: seq<Product>, i: nat, j: nat)
    requires i < j < |ps| && ps[i].id == ps[j].id
    requires FileName(ps[j].id) !in fs.statFaults
    ensures RunBatch(fs, dir, ps, Create).written <= j
    ensures RunBatch(fs, dir, ps, Create).status.Failure?
    decreases |ps|
  {
    if i == 0 {
      SaveRefusesFirstRepeat(fs, dir, ps, j);
    } else if Step(fs, dir, ps[0], Create).Wrote? {
      var next := Step(fs, dir, ps[0], Create).next;
      StepWrites(fs, dir, ps[0], Create);
      assert ps[1..][i - 1] == ps[i] && ps[1..][j - 1] == ps[j];
      SaveRefusesRepeat(next, dir, ps[1..], i - 1, j - 1);
      assert RunBatch(fs, dir, ps, Create) == Advance(RunBatch(next, dir, ps[1..], Create), 1);
    }
  }

  lemma SaveRefusesFirstRepeat(fs: FsState, dir: string, ps: seq<Product>, j: nat)
    requires 0 < j < |ps| && ps[0].id == ps[j].id
    requires FileName(ps[j].id) !in fs.statFaults
    ensures RunBatch(fs, dir, ps, Create).written <= j
    ensures RunBatch(fs, dir, ps, Create).status.Failure?
  {
    if Step(fs, dir, ps[0], Create).Wrote? {
      var next := Step(fs, dir, ps[0], Create).next;
      StepWrites(fs, dir, ps[0], Create);
      assert ps[1..][j - 1] == ps[j];
      SaveStopsAtExisting(next, dir, ps[1..], j - 1);
      assert RunBatch(fs, dir, ps, Create) == Advance(RunBatch(next, dir, ps[1..], Create), 1);
    }
  }

  /** UpdateProducts does no existence check: it fails only on storage
      errors, and succeeds whenever every file can be written and every
      product encoded. */
  lemma {:induction false} OverwriteFailsOnlyOnStorage(fs: FsState, dir: string, ps: seq<Product>)
    ensures var out := RunBatch(fs, dir, ps, Overwrite);
      out.status.Failure? ==> out.status.error.StorageError?
    ensures (&& (ps != [] ==> fs.dirExists)
             && forall i :: 0 <= i < |ps| ==>
                  var name := FileName(ps[i].id);
                  && name !in fs.writeFaults
                  && !(name in fs.entries && fs.entries[name].Dir?)
                  && IsFinite(ps[i].price) && IsFinite(ps[i].rating))
            ==> RunBatch(fs, dir, ps, Overwrite).status == Success
    decreases |ps|
  {
    if ps != [] {
      StepMeaning(fs, dir, ps[0], Overwrite);
      match Step(fs, dir, ps[0], Overwrite)
      case Stopped(_, _) =>
      case Wrote(next) =>
        var rest := ps[1..];
        OverwriteFailsOnlyOnStorage(next, dir, rest);
        assert forall i :: 0 <= i < |rest| ==> rest[i] == ps[i + 1];
        forall i | 0 <= i < |rest|
          ensures var name := FileName(rest[i].id);
            name in fs.entries && fs.entries[name].Dir? ==> name in next.entries && next.entries[name].Dir?
        {
          FileNameInjective(rest[i].id, ps[0].id);
        }
    }
  }

  /** SaveProducts writes a batch of fresh ids: with the directory there,
      no id repeated, no file of the batch present or failing to be written,
      and every product encodable, it succeeds. */
  lemma {:induction false} CreateSucceedsOnFresh(fs: FsState, dir: string, ps: seq<Product>)
    requires ps != [] ==> fs.dirExists
    requires forall i, j :: 0 <= i < j < |ps| ==> ps[i].id != ps[j].id
    requires forall i :: 0 <= i < |ps| ==>
               var name := FileName(ps[i].id);
               && name !in fs.entries && name !in fs.writeFaults
               && IsFinite(ps[i].price) && IsFinite(ps[i].rating)
    ensures RunBatch(fs, dir, ps, Create).status == Success
    decreases |ps|
  {
    if ps != [] {
      StepMeaning(fs, dir, ps[0], Create);
      var next := fs.(entries := fs.entries[FileName(ps[0].id) := File(Document(ps[0]))]);
      assert Step(fs, dir, ps[0], Create) == Wrote(next);
      var rest := ps[1..];
      forall i | 0 <= i < |rest|
        ensures FileName(rest[i].id) !in next.entries
      {
        assert rest[i] == ps[i + 1];
        FileNameInjective(rest[i].id, ps[0].id);
      }
      assert forall i, j :: 0 <= i < j < |rest| ==> rest[i] == ps[i + 1] && rest[j] == ps[j + 1];
      CreateSucceedsOnFresh(next, dir, rest);
    }
  }

  // ---------------------------------------------------------------- delete

  /** DeleteByID: NotFound, with nothing changed, exactly when the file is
      missing; on success exactly that file is gone and every other entry
      is as it was. */
  lemma DeleteOneMeaning(fs: FsState, dir: string, id: int)
    ensures var name := FileName(id);
      match DeleteOne(fs, dir, id)
      case Ok(next) =>
        && Present(fs, name) && name !in fs.removeFaults
        && next.entries.Keys == fs.entries.Keys - {name}
        && (forall n :: n in next.entries ==> next.entries[n] == fs.entries[n])
        && next == fs.(entries := next.entries)
      case Err(e) =>
        && !(Present(fs, name) && name !in fs.removeFaults && fs.entries[name] != Dir(false))
        && (e == NotFound(id) <==> name !in fs.removeFaults && !Present(fs, name))
        && (e.StorageError? || e == NotFound(id))
  {
  }

  /** Deleting one id leaves every other id's file reading the same. */
  lemma DeleteLeavesOthers(fs: FsState, dir: string, id: int, other: int)
    requires DeleteOne(fs, dir, id).Ok? && other != id
    ensures Lookup(DeleteOne(fs, dir, id).value, dir, other) == Lookup(fs, dir, other)
  {
    FileNameInjective(id, other);
  }
}
