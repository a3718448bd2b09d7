/** The file-per-record store (repository.ProductRepoJson): product `id` lives
    in `<storagePath>/<id>.json`. The functions below say what each operation
    does to a directory state; the class runs the operations on its own
    directory, loop by loop as the store does, and is proved to agree with
    them. */
module Repository {
  import opened Wrappers
  import opened Decimal
  import opened Models
  import opened Json
  import opened FileSystem
  import opened Errors

  /** The file that holds record `id`: `%d.json`. */
  function FileName(id: int): string
  {
    IntToString(id) + ".json"
  }

  /** `fmt.Sprintf("%s/%s", dir, name)`, the path shown in messages. */
  function FilePath(dir: string, name: string): string
  {
    dir + "/" + name
  }

  // The storage errors, worded as the store words them.

  function ListFailure(dir: string, pe: PathError): Error
  {
    StorageError("failed to read directory " + dir + ": " + Describe(pe, dir))
  }

  function ReadFailure(path: string, pe: PathError): Error
  {
    StorageError("failed to read file " + path + ": " + Describe(pe, path))
  }

  function UnmarshalFailure(path: string, cause: string): Error
  {
    StorageError("failed to unmarshal file " + path + ": " + cause)
  }

  function MarshalFailure(path: string, cause: string): Error
  {
    StorageError("failed to marshal product " + path + ": " + cause)
  }

  function WriteFailure(path: string, pe: PathError): Error
  {
    StorageError("failed to write product " + path + ": " + Describe(pe, path))
  }

  /** Names the id, not the path, as the store does. */
  function DeleteFailure(id: int, path: string, pe: PathError): Error
  {
    StorageError("failed to delete file " + IntToString(id) + ": " + Describe(pe, path))
  }

  /** Reads and decodes the entry `name`; every failure is a storage error. */
  function ParseFile(fs: FsState, dir: string, name: string): Result<Product, Error>
  {
    var path := FilePath(dir, name);
    match ReadFile(fs, name)
    case Err(pe) => Err(ReadFailure(path, pe))
    case Ok(c) =>
      match Unmarshal(c)
      case Err(cause) => Err(UnmarshalFailure(path, cause))
      case Ok(p) => Ok(p)
  }

  /** GetProductByID: as ParseFile on `%d.json`, except that a file that is
      not there is reported as NotFound. */
  function Lookup(fs: FsState, dir: string, id: int): Result<Product, Error>
  {
    match ReadFile(fs, FileName(id))
    case Err(PathError(_, NotExist)) => Err(NotFound(id))
    case _ => ParseFile(fs, dir, FileName(id))
  }

  /** LoadProducts reads an entry when it is not a sub-directory and its
      extension is `.json`. */
  predicate Selected(fs: FsState, name: string)
  {
    !(name in fs.entries && fs.entries[name].Dir?) && Ext(name) == ".json"
  }

  /** The entries of a listing that LoadProducts reads, in listing order. */
  function Candidates(fs: FsState, names: seq<string>): seq<string>
    decreases |names|
  {
    if names == [] then []
    else (if Selected(fs, names[0]) then [names[0]] else []) + Candidates(fs, names[1..])
  }

  function Parser(fs: FsState, dir: string): string -> Result<Product, Error>
  {
    name => ParseFile(fs, dir, name)
  }

  function Finder(fs: FsState, dir: string): int -> Result<Product, Error>
  {
    id => Lookup(fs, dir, id)
  }

  /** LoadProducts on the listing `listing`: nothing (and no error) when the
      directory does not exist; otherwise every selected entry decoded, in
      listing order, or the first failure. */
  function LoadAll(fs: FsState, dir: string, listing: seq<string>): (r: Result<seq<Product>, Error>)
    ensures !fs.dirExists ==> r == Ok([])
  {
    match ReadDirError(fs)
    case Some(pe) => if pe.err == NotExist then Ok([]) else Err(ListFailure(dir, pe))
    case None => CollectAll(Candidates(fs, listing), Parser(fs, dir))
  }

  /** CompareProducts: one lookup per id, in request order, or the first failure. */
  function CompareAll(fs: FsState, dir: string, ids: seq<int>): Result<seq<Product>, Error>
  {
    CollectAll(ids, Finder(fs, dir))
  }

  /** SaveProducts checks for an existing file; UpdateProducts does not. */
  datatype WriteMode = Create | Overwrite

  /** How one iteration of the SaveProducts or UpdateProducts loop ends: the
      product is written, or the loop returns an error. A write that fails
      after its open has already changed the directory. */
  datatype StepOutcome = Wrote(next: FsState) | Stopped(after: FsState, error: Error)

  /** One iteration of the SaveProducts or UpdateProducts loop for product `p`. */
  function Step(fs: FsState, dir: string, p: Product, mode: WriteMode): StepOutcome
  {
    var name := FileName(p.id);
    var path := FilePath(dir, name);
    if mode == Create && Stat(fs, name).Ok? then Stopped(fs, AlreadyExists(p.id))
    else
      match Marshal(p)
      case Err(cause) => Stopped(fs, MarshalFailure(path, cause))
      case Ok(c) =>
        var w := WriteFile(fs, name, c);
        match w.error
        case Some(pe) => Stopped(w.fs, WriteFailure(path, pe))
        case None => Wrote(w.fs)
  }

  /** The directory after a batch, how many products of it were written
      (a prefix, since the loop stops at the first failure), and the result. */
  datatype BatchOutcome = BatchOutcome(fs: FsState, written: nat, status: Status)

  function Advance(out: BatchOutcome, n: nat): BatchOutcome
  {
    out.(written := out.written + n)
  }

  /** SaveProducts (Create) or UpdateProducts (Overwrite) on a batch. */
  function RunBatch(fs: FsState, dir: string, ps: seq<Product>, mode: WriteMode): (out: BatchOutcome)
    ensures out.written <= |ps|
    ensures out.status.Success? <==> out.written == |ps|
    decreases |ps|
  {
    if ps == [] then BatchOutcome(fs, 0, Success)
    else
      match Step(fs, dir, ps[0], mode)
      case Stopped(after, e) => BatchOutcome(after, 0, Failure(e))
      case Wrote(next) => Advance(RunBatch(next, dir, ps[1..], mode), 1)
  }

  /** The entries after the files of `ps` are written, in order. */
  function Stored(entries: map<string, Node>, ps: seq<Product>): map<string, Node>
    decreases |ps|
  {
    if ps == [] then entries
    else Stored(entries[FileName(ps[0].id) := File(Document(ps[0]))], ps[1..])
  }

  /** DeleteByID. */
  function DeleteOne(fs: FsState, dir: string, id: int): Result<FsState, Error>
  {
    var name := FileName(id);
    match Remove(fs, name)
    case Err(pe) => if pe.err == NotExist then Err(NotFound(id)) else Err(DeleteFailure(id, FilePath(dir, name), pe))
    case Ok(next) => Ok(next)
  }

  /** The store object. Go keeps only the path; the directory it names is
      part of the object here, so that the methods can change it. */
  class ProductRepoJson {
    const storagePath: string
    var dirExists: bool
    var listFault: Option<string>
    var entries: map<string, Node>
    var statFaults: map<string, string>
    var readFaults: map<string, string>
    var writeFaults: map<string, WriteFault>
    var removeFaults: map<string, string>

    function Fs(): FsState
      reads this
    {
      FsState(dirExists, listFault, entries, statFaults, readFaults, writeFaults, removeFaults)
    }

    /** NewProductRepo. `disk` is the storage directory as the process finds it. */
    constructor (path: string, disk: FsState)
      ensures storagePath == if path == "" then "data/" else path
      ensures Fs() == disk
    {
      storagePath := if path == "" then "data/" else path;
      dirExists := disk.dirExists;
      listFault := disk.listFault;
      entries := disk.entries;
      statFaults := disk.statFaults;
      readFaults := disk.readFaults;
      writeFaults := disk.writeFaults;
      removeFaults := disk.removeFaults;
    }

    /** `listing` is what `os.ReadDir` returns for the directory. */
    method LoadProducts(listing: seq<string>) returns (r: Result<seq<Product>, Error>)
      requires IsListing(listing, entries)
      ensures r == LoadAll(Fs(), storagePath, listing)
    {
      var dir := storagePath;
      var fs := Fs();
      var listError := ReadDirError(fs);
      if listError.Some? {
        if listError.value.err == NotExist {
          return Ok([]);
        }
        return Err(ListFailure(dir, listError.value));
      }
      var products: seq<Product> := [];
      assert listing[0..] == listing;
      PrependNothing(CollectAll(Candidates(fs, listing), Parser(fs, dir)));
      for i := 0 to |listing|
        invariant LoadAll(fs, dir, listing) == Prepend(products, CollectAll(Candidates(fs, listing[i..]), Parser(fs, dir)))
      {
        var name := listing[i];
        ghost var later := CollectAll(Candidates(fs, listing[i + 1..]), Parser(fs, dir));
        assert listing[i..][1..] == listing[i + 1..];
        if name in entries && entries[name].Dir? {
          assert Candidates(fs, listing[i..]) == Candidates(fs, listing[i + 1..]);
          continue;
        }
        if Ext(name) != ".json" {
          assert Candidates(fs, listing[i..]) == Candidates(fs, listing[i + 1..]);
          continue;
        }
        assert Candidates(fs, listing[i..]) == [name] + Candidates(fs, listing[i + 1..]);
        assert ([name] + Candidates(fs, listing[i + 1..]))[1..] == Candidates(fs, listing[i + 1..]);
        var filePath := FilePath(dir, name);
        var bytes := ReadFile(fs, name);
        if bytes.Err? {
          return Err(ReadFailure(filePath, bytes.error));
        }
        var product := Unmarshal(bytes.value);
        if product.Err? {
          return Err(UnmarshalFailure(filePath, product.error));
        }
        assert Parser(fs, dir)(name) == Ok(product.value);
        PrependAppend(products, product.value, later);
        assert CollectAll(Candidates(fs, listing[i..]), Parser(fs, dir)) == Prepend([product.value], later);
        products := products + [product.value];
      }
      assert products + [] == products;
      return Ok(products);
    }

    method SaveProducts(products: seq<Product>) returns (status: Status)
      modifies this`entries
      ensures var out := RunBatch(old(Fs()), storagePath, products, Create);
              Fs() == out.fs && status == out.status
    {
      var dir := storagePath;
      for i := 0 to |products|
        invariant RunBatch(old(Fs()), dir, products, Create) == Advance(RunBatch(Fs(), dir, products[i..], Create), i)
      {
        var p := products[i];
        assert products[i..][1..] == products[i + 1..];
        var fileName := FileName(p.id);
        var path := FilePath(dir, fileName);
        if Stat(Fs(), fileName).Ok? {
          return Failure(AlreadyExists(p.id));
        }
        var bytes := Marshal(p);
        if bytes.Err? {
          return Failure(MarshalFailure(path, bytes.error));
        }
        ghost var before := Fs();
        var written := WriteFile(Fs(), fileName, bytes.value);
        entries := written.fs.entries;
        assert Fs() == written.fs;
        if written.error.Some? {
          assert Step(before, dir, p, Create) == Stopped(Fs(), WriteFailure(path, written.error.value));
          return Failure(WriteFailure(path, written.error.value));
        }
        assert Step(before, dir, p, Create) == Wrote(Fs());
        assert RunBatch(before, dir, products[i..], Create) == Advance(RunBatch(Fs(), dir, products[i + 1..], Create), 1);
      }
      return Success;
    }

    method UpdateProducts(products: seq<Product>) returns (status: Status)
      modifies this`entries
      ensures var out := RunBatch(old(Fs()), storagePath, products, Overwrite);
              Fs() == out.fs && status == out.status
    {
      var dir := storagePath;
      for i := 0 to |products|
        invariant RunBatch(old(Fs()), dir, products, Overwrite) == Advance(RunBatch(Fs(), dir, products[i..], Overwrite), i)
      {
        var p := products[i];
        assert products[i..][1..] == products[i + 1..];
        var fileName := FileName(p.id);
        var path := FilePath(dir, fileName);
        var bytes := Marshal(p);
        if bytes.Err? {
          return Failure(MarshalFailure(path, bytes.error));
        }
        ghost var before := Fs();
        var written := WriteFile(Fs(), fileName, bytes.value);
        entries := written.fs.entries;
        assert Fs() == written.fs;
        if written.error.Some? {
          assert Step(before, dir, p, Overwrite) == Stopped(Fs(), WriteFailure(path, written.error.value));
          return Failure(WriteFailure(path, written.error.value));
        }
        assert Step(before, dir, p, Overwrite) == Wrote(Fs());
        assert RunBatch(before, dir, products[i..], Overwrite) == Advance(RunBatch(Fs(), dir, products[i + 1..], Overwrite), 1);
      }
      return Success;
    }

    method CompareProducts(ids: seq<int>) returns (r: Result<seq<Product>, Error>)
      ensures r == CompareAll(Fs(), storagePath, ids)
    {
      var products: seq<Product> := [];
      assert ids[0..] == ids;
      PrependNothing(CollectAll(ids, Finder(Fs(), storagePath)));
      for i := 0 to |ids|
        invariant CompareAll(Fs(), storagePath, ids) == Prepend(products, CollectAll(ids[i..], Finder(Fs(), storagePath)))
      {
        assert ids[i..][1..] == ids[i + 1..];
        var product := GetProductByID(ids[i]);
        assert Finder(Fs(), storagePath)(ids[i]) == product;
        if product.Err? {
          return Err(product.error);
        }
        PrependAppend(products, product.value, CollectAll(ids[i + 1..], Finder(Fs(), storagePath)));
        products := products + [product.value];
      }
      assert products + [] == products;
      return Ok(products);
    }

    method GetProductByID(id: int) returns (r: Result<Product, Error>)
      ensures r == Lookup(Fs(), storagePath, id)
    {
      var fileName := FileName(id);
      var path := FilePath(storagePath, fileName);
      var bytes := ReadFile(Fs(), fileName);
      if bytes.Err? {
        if bytes.error.err == NotExist {
          return Err(NotFound(id));
        }
        return Err(ReadFailure(path, bytes.error));
      }
      var product := Unmarshal(bytes.value);
      if product.Err? {
        return Err(UnmarshalFailure(path, product.error));
      }
      return Ok(product.value);
    }

    method DeleteByID(id: int) returns (status: Status)
      modifies this`entries
      ensures match DeleteOne(old(Fs()), storagePath, id)
              case Ok(next) => Fs() == next && status == Success
              case Err(e) => Fs() == old(Fs()) && status == Failure(e)
    {
      var fileName := FileName(id);
      var removed := Remove(Fs(), fileName);
      if removed.Err? {
        if removed.error.err == NotExist {
          return Failure(NotFound(id));
        }
        return Failure(DeleteFailure(id, FilePath(storagePath, fileName), removed.error));
      }
      entries := removed.value.entries;
      return Success;
    }
  }
}
