/**
 * The on-disk cache of the Scryfall client: where a card record and a card image are stored,
 * the directories the cache manager creates when it starts, and the read/write strategies.
 */
module ScryfallCache {
  import opened Wrappers
  import opened Text
  import opened PosixPath

  /** A `str.format` template with a single `{}` placeholder: the text before it and the text after it. */
  datatype Template = Template(before: string, after: string)

  function Fill(t: Template, arg: string): string {
    t.before + arg + t.after
  }

  /** The image filename table, face name to template: `{}.png` for the front and `{}.back.png` for the back. */
  const ImageFilenameFormat: map<string, Template> := map["front" := Template("", ".png"), "back" := Template("", ".back.png")]

  /** `f".{code.upper()}" if code else ""`: neither `None` nor the empty code adds anything. */
  function SetSuffix(code: Option<string>): (r: string)
    ensures r == [] <==> code.None? || code.value == []
    ensures r != [] ==> r[0] == '.' && r[1..] == Upper(code.value)
  {
    if code.Some? && code.value != [] then "." + Upper(code.value) else ""
  }

  datatype CacheError =
    | FileNotFound(path: string)  // `open` of a path that holds nothing
    | MissingFace(face: string)   // `KeyError` from the filename table

  /** `get_card_cache_path`: the record of a card, `name[.SET].json`, inside the data directory. */
  function CardCachePath(dataDir: string, name: string, setCode: Option<string>): (r: string)
    ensures |r| >= 5 && r[|r| - 5..] == ".json"
  {
    PathJoin(dataDir, name + SetSuffix(setCode) + ".json")
  }

  /** `get_image_cache_path`: the image of one face of a card inside the images directory, named by the face's template. */
  function ImageCachePath(imagesDir: string, name: string, setCode: Option<string>, face: string,
                          formats: map<string, Template>): (r: Result<string, CacheError>)
    ensures r.Failure? <==> face !in formats
    ensures r.Failure? ==> r.error == MissingFace(face)
  {
    if face !in formats then Failure(MissingFace(face))
    else Success(PathJoin(imagesDir, name + Fill(formats[face], SetSuffix(setCode))))
  }

  // ---------------------------------------------------------------------------------------------
  // Properties of the paths

  /** Two file names that share a prefix and an extension, joined onto one directory, give the same path
      exactly when the parts between them agree. */
  lemma JoinedMiddleInjective(dir: string, prefix: string, m1: string, m2: string, ext: string)
    requires prefix != [] || ((m1 == [] || m1[0] != '/') && (m2 == [] || m2[0] != '/'))
    requires ext != [] && ext[0] != '/'
    ensures PathJoin(dir, prefix + m1 + ext) == PathJoin(dir, prefix + m2 + ext) <==> m1 == m2
  {
    var b1 := prefix + m1 + ext;
    var b2 := prefix + m2 + ext;
    if PathJoin(dir, b1) == PathJoin(dir, b2) {
      assert IsAbsolute(b1) <==> IsAbsolute(b2) by {
        if prefix != [] {
          assert b1[0] == prefix[0] && b2[0] == prefix[0];
        } else {
          assert b1[0] == (if m1 == [] then ext[0] else m1[0]);
          assert b2[0] == (if m2 == [] then ext[0] else m2[0]);
        }
      }
      PathJoinInjective(dir, b1, b2);
      assert |m1| == |m2|;
      assert m1 == b1[|prefix|..|prefix| + |m1|];
      assert m2 == b2[|prefix|..|prefix| + |m2|];
    }
  }

  /** The record path ignores the case of the set code: two non-empty codes give the same path exactly
      when they upper-case alike, so `lea` and `LEA` share one record. */
  lemma CardPathIgnoresSetCodeCase(dataDir: string, name: string, c1: string, c2: string)
    requires c1 != [] && c2 != []
    ensures CardCachePath(dataDir, name, Some(c1)) == CardCachePath(dataDir, name, Some(c2)) <==> Upper(c1) == Upper(c2)
  {
    RecordName(name, c1);
    RecordName(name, c2);
    JoinedMiddleInjective(dataDir, name + ".", Upper(c1), Upper(c2), ".json");
  }

  lemma RecordName(name: string, code: string)
    requires code != []
    ensures name + SetSuffix(Some(code)) + ".json" == (name + ".") + Upper(code) + ".json"
  {
    assert SetSuffix(Some(code)) == "." + Upper(code);
  }

  /** Without a set code, or with an empty one, the record is `name.json` and the two cases agree. */
  lemma CardPathWithoutSetCode(dataDir: string, name: string)
    ensures CardCachePath(dataDir, name, None) == CardCachePath(dataDir, name, Some(""))
    ensures CardCachePath(dataDir, name, None) == PathJoin(dataDir, name + ".json")
  {
    assert name + "" + ".json" == name + ".json";
  }

  /** The record of "Black Lotus" from set `lea` is `Black Lotus.LEA.json` in the data directory. */
  lemma CardPathExample(dataDir: string)
    ensures CardCachePath(dataDir, "Black Lotus", Some("lea")) == PathJoin(dataDir, "Black Lotus.LEA.json")
  {
    var u := Upper("lea");
    assert u[0] == 'L' && u[1] == 'E' && u[2] == 'A';
    assert u == "LEA";
    assert "Black Lotus" + SetSuffix(Some("lea")) + ".json" == "Black Lotus.LEA.json";
  }

  /** With the image table, the front and back images of a card are `name[.SET].png` and `name[.SET].back.png`:
      both exist, and they are different paths. */
  lemma FrontAndBackImagesDiffer(imagesDir: string, name: string, setCode: Option<string>)
    ensures ImageCachePath(imagesDir, name, setCode, "front", ImageFilenameFormat)
         == Success(PathJoin(imagesDir, name + SetSuffix(setCode) + ".png"))
    ensures ImageCachePath(imagesDir, name, setCode, "back", ImageFilenameFormat)
         == Success(PathJoin(imagesDir, name + SetSuffix(setCode) + ".back.png"))
    ensures ImageCachePath(imagesDir, name, setCode, "front", ImageFilenameFormat)
         != ImageCachePath(imagesDir, name, setCode, "back", ImageFilenameFormat)
  {
    var suffix := SetSuffix(setCode);
    ImageTemplate(imagesDir, name, suffix, "front", ".png");
    ImageTemplate(imagesDir, name, suffix, "back", ".back.png");
    FaceExtensionsDiffer(imagesDir, name + suffix);
  }

  /** A table entry with an empty text before the placeholder puts the suffix right after the name. */
  lemma ImageTemplate(imagesDir: string, name: string, suffix: string, face: string, ext: string)
    requires face in ImageFilenameFormat && ImageFilenameFormat[face] == Template("", ext)
    ensures PathJoin(imagesDir, name + Fill(ImageFilenameFormat[face], suffix)) == PathJoin(imagesDir, name + suffix + ext)
  {
    assert Fill(Template("", ext), suffix) == suffix + ext;
    assert name + (suffix + ext) == name + suffix + ext;
  }

  lemma FaceExtensionsDiffer(dir: string, stem: string)
    ensures PathJoin(dir, stem + ".png") != PathJoin(dir, stem + ".back.png")
  {
    var f := stem + ".png";
    var b := stem + ".back.png";
    assert f[0] == b[0] by {
      if stem != [] {
        assert f[0] == stem[0] && b[0] == stem[0];
      }
    }
    assert |f| != |b|;
    PathJoinInjective(dir, f, b);
  }

  /** The image path ignores the case of the set code, whatever the face. */
  lemma ImagePathIgnoresSetCodeCase(imagesDir: string, name: string, c1: string, c2: string, face: string,
                                    formats: map<string, Template>)
    requires Upper(c1) == Upper(c2)
    ensures ImageCachePath(imagesDir, name, Some(c1), face, formats) == ImageCachePath(imagesDir, name, Some(c2), face, formats)
  {
    assert |c1| == |Upper(c1)| && |c2| == |Upper(c2)|;
  }

  /** A face the table does not name is an error, whatever the name and set code. */
  lemma UnknownFaceFails(imagesDir: string, name: string, setCode: Option<string>)
    ensures ImageCachePath(imagesDir, name, setCode, "side", ImageFilenameFormat) == Failure(MissingFace("side"))
  {
    assert "side" != "front" && "side" != "back";
  }

  // ---------------------------------------------------------------------------------------------
  // Directory bootstrapping

  /** The existing paths after `_ensure_directories` has visited `paths` in order, and the error that stopped
      it, if any: each path that does not exist yet is created by `os.makedirs`, missing parents included,
      and the first error propagates, leaving the later paths unvisited. */
  function EnsureSpec(existing: set<string>, paths: seq<string>): (r: (set<string>, Option<OsError>))
    ensures existing <= r.0
    ensures r.1 == None || r.1 == Some(FileNotFoundError(""))
    decreases |paths|
  {
    if paths == [] then (existing, None)
    else
      var (before, error) := EnsureSpec(existing, paths[..|paths| - 1]);
      var p := paths[|paths| - 1];
      if error.Some? || Exists(before, p) then (before, error)
      else
        match MakeDirs(before, p)
        case Success(made) => (before + made, None)
        case Failure(e) => (before, Some(e))
  }

  /** The error a visit of `paths` ends in: only the empty path fails. */
  function EnsureError(paths: seq<string>): Option<OsError> {
    if "" in paths then Some(FileNotFoundError("")) else None
  }

  /** Every path the visit reaches before the first empty one is in `t`. */
  predicate Reached(t: set<string>, paths: seq<string>) {
    forall k :: 0 <= k < |paths| && "" !in paths[..k + 1] ==> paths[k] in t
  }

  /** Afterwards every path visited before the first empty one exists, nothing that existed before was
      removed, and the visit fails exactly when an empty path is among `paths`. */
  lemma {:induction false} EnsureSpecCreates(existing: set<string>, paths: seq<string>)
    ensures existing <= EnsureSpec(existing, paths).0
    ensures EnsureSpec(existing, paths).1 == EnsureError(paths)
    ensures Reached(EnsureSpec(existing, paths).0, paths)
    ensures "" !in paths ==> forall p :: p in paths ==> p in EnsureSpec(existing, paths).0
    decreases |paths|
  {
    if paths != [] {
      var init := paths[..|paths| - 1];
      var p := paths[|paths| - 1];
      var (before, error) := EnsureSpec(existing, init);
      EnsureSpecCreates(existing, init);
      ReachedExtend(EnsureSpec(existing, paths).0, before, paths);
      LastSplit(paths);
      if "" !in paths {
        forall q | q in paths ensures q in EnsureSpec(existing, paths).0 {
          var k :| 0 <= k < |paths| && paths[k] == q;
          assert "" !in paths[..k + 1];
        }
      }
    }
  }

  /** One more path: a visit that reached the shorter list in `before` reaches the longer one in `t`. */
  lemma ReachedExtend(t: set<string>, before: set<string>, paths: seq<string>)
    requires paths != [] && before <= t && Reached(before, paths[..|paths| - 1])
    requires "" in paths[..|paths| - 1] || paths[|paths| - 1] == "" || paths[|paths| - 1] in t
    ensures Reached(t, paths)
  {
    var init := paths[..|paths| - 1];
    forall k | 0 <= k < |paths| && "" !in paths[..k + 1] ensures paths[k] in t {
      if k < |init| {
        assert paths[..k + 1] == init[..k + 1];
      } else {
        assert paths[..k + 1] == init + [paths[k]];
      }
    }
  }

  /** When every path the visit reaches exists, nothing is created and only an empty path fails. */
  lemma {:induction false} EnsureSpecNoop(existing: set<string>, paths: seq<string>)
    requires Reached(existing, paths)
    ensures EnsureSpec(existing, paths) == (existing, EnsureError(paths))
    decreases |paths|
  {
    if paths != [] {
      var init := paths[..|paths| - 1];
      var p := paths[|paths| - 1];
      forall k | 0 <= k < |init| && "" !in init[..k + 1] ensures init[k] in existing {
        assert paths[..k + 1] == init[..k + 1];
      }
      EnsureSpecNoop(existing, init);
      LastSplit(paths);
      if "" !in init && p != "" {
        assert paths[..|init| + 1] == paths;
      }
    }
  }

  /** A second round creates nothing and ends the same way. */
  lemma EnsureSpecIdempotent(existing: set<string>, paths: seq<string>)
    ensures EnsureSpec(EnsureSpec(existing, paths).0, paths) == EnsureSpec(existing, paths)
  {
    EnsureSpecCreates(existing, paths);
    EnsureSpecNoop(EnsureSpec(existing, paths).0, paths);
  }

  /** Once a visit has failed, the later paths change nothing. */
  lemma {:induction false} EnsureSpecStops(existing: set<string>, paths: seq<string>, i: nat)
    requires i <= |paths| && EnsureSpec(existing, paths[..i]).1.Some?
    ensures EnsureSpec(existing, paths) == EnsureSpec(existing, paths[..i])
    decreases |paths|
  {
    if i < |paths| {
      var init := paths[..|paths| - 1];
      assert init[..i] == paths[..i];
      EnsureSpecStops(existing, init, i);
    } else {
      assert paths[..i] == paths;
    }
  }

  /** Every directory that is created is one of the visited paths or a prefix of one (a parent). */
  lemma {:induction false} EnsureSpecWithinPaths(existing: set<string>, paths: seq<string>)
    ensures forall d :: d in EnsureSpec(existing, paths).0 && d !in existing ==>
      (exists p :: p in paths && |d| <= |p| && d == p[..|d|])
    decreases |paths|
  {
    if paths != [] {
      var init := paths[..|paths| - 1];
      var p := paths[|paths| - 1];
      var before := EnsureSpec(existing, init).0;
      EnsureSpecWithinPaths(existing, init);
      MakeDirsWithinPath(before, p);
      forall d | d in EnsureSpec(existing, paths).0 && d !in existing
        ensures exists p' :: p' in paths && |d| <= |p'| && d == p'[..|d|]
      {
        if d in before {
          var p' :| p' in init && |d| <= |p'| && d == p'[..|d|];
          assert p' in paths;
        } else {
          assert p in paths;
        }
      }
    }
  }

  /** The three cache directories under `baseDir`, in the order they are ensured. */
  function CacheLayout(baseDir: string): (paths: seq<string>)
    ensures |paths| == 3 && paths[0] == baseDir
    ensures paths[1] == PathJoin(baseDir, "data") && paths[2] == PathJoin(baseDir, "images")
  {
    [baseDir, PathJoin(baseDir, "data"), PathJoin(baseDir, "images")]
  }

  /** Ensuring the cache directories fails exactly for the empty base directory, and then creates nothing:
      `os.path.exists("")` is false and `os.makedirs("")` raises at once. */
  lemma CacheLayoutOutcome(existing: set<string>, baseDir: string)
    ensures EnsureSpec(existing, CacheLayout(baseDir)).1.Some? <==> baseDir == ""
    ensures baseDir == "" ==> EnsureSpec(existing, CacheLayout(baseDir)) == (existing, Some(FileNotFoundError("")))
    ensures baseDir != "" ==> forall p :: p in CacheLayout(baseDir) ==> p in EnsureSpec(existing, CacheLayout(baseDir)).0
  {
    var paths := CacheLayout(baseDir);
    EnsureSpecCreates(existing, paths);
    assert "" in paths <==> baseDir == "" by {
      assert paths[1] != "" && paths[2] != "";
    }
    if baseDir == "" {
      assert paths[..1] == [""];
      assert paths[..1][..0] == [];
      EnsureSpecStops(existing, paths, 1);
    }
  }

  /** The cache directories and the paths that exist on disk. */
  class CacheManager {
    const baseDir: string
    const dataDir: string
    const imagesDir: string
    var existing: set<string>

    /** The three cache directories, in the order they are ensured. */
    function Directories(): seq<string> {
      [baseDir, dataDir, imagesDir]
    }

    /** The attributes `__init__` sets before it ensures the directories. */
    constructor (baseDir: string, existing: set<string>)
      ensures this.baseDir == baseDir
      ensures dataDir == PathJoin(baseDir, "data") && imagesDir == PathJoin(baseDir, "images")
      ensures Directories() == CacheLayout(baseDir)
      ensures this.existing == existing
    {
      this.baseDir := baseDir;
      dataDir := PathJoin(baseDir, "data");
      imagesDir := PathJoin(baseDir, "images");
      this.existing := existing;
    }

    /** `CacheManager(base_dir)`: the attributes, then `_ensure_directories`; an error it raises leaves
        `__init__`, so no manager is returned then. */
    static method Create(baseDir: string, existing: set<string>) returns (r: Result<CacheManager, OsError>)
      ensures r.Failure? <==> EnsureSpec(existing, CacheLayout(baseDir)).1.Some?
      ensures r.Failure? ==> Some(r.error) == EnsureSpec(existing, CacheLayout(baseDir)).1
      ensures r.Success? ==>
        && fresh(r.value) && r.value.baseDir == baseDir
        && r.value.Directories() == CacheLayout(baseDir)
        && r.value.existing == EnsureSpec(existing, CacheLayout(baseDir)).0
    {
      var m := new CacheManager(baseDir, existing);
      var error := m.EnsureDirectories();
      if error.Some? {
        r := Failure(error.value);
      } else {
        r := Success(m);
      }
    }

    /** `_ensure_directories`: creates each cache directory that does not exist yet, stopping at the first
        error `os.makedirs` raises. */
    method EnsureDirectories() returns (error: Option<OsError>)
      modifies this
      ensures (existing, error) == EnsureSpec(old(existing), Directories())
    {
      var paths := Directories();
      var i := 0;
      error := None;
      while i < |paths| && error.None?
        invariant i <= |paths|
        invariant (existing, error) == EnsureSpec(old(existing), paths[..i])
      {
        assert paths[..i + 1][..i] == paths[..i];
        if !Exists(existing, paths[i]) {
          match MakeDirs(existing, paths[i]) {
            case Success(made) =>
              existing := existing + made;
            case Failure(e) =>
              error := Some(e);
          }
        }
        i := i + 1;
      }
      if error.Some? {
        EnsureSpecStops(old(existing), paths, i);
      } else {
        assert paths[..i] == paths;
      }
    }

    /** `get_card_cache_path`. */
    function CardPath(name: string, setCode: Option<string>): string
      reads this
    {
      CardCachePath(dataDir, name, setCode)
    }

    /** `get_image_cache_path`, with the image filename table. */
    function ImagePath(name: string, setCode: Option<string>, face: string): Result<string, CacheError>
      reads this
    {
      ImageCachePath(imagesDir, name, setCode, face, ImageFilenameFormat)
    }
  }

  // ---------------------------------------------------------------------------------------------
  // The read/write strategies

  /** What a strategy's `read` returns for `path`: the stored content, or the error `open` raises. */
  function Lookup<T>(files: map<string, T>, path: string): Result<T, CacheError> {
    if path in files then Success(files[path]) else Failure(FileNotFound(path))
  }

  /** A read after a write to the same path returns what was written. */
  lemma ReadAfterWrite<T>(files: map<string, T>, path: string, data: T)
    ensures Lookup(files[path := data], path) == Success(data)
  {
  }

  /** A write changes what is read at its own path only. */
  lemma WriteLeavesOthers<T>(files: map<string, T>, path: string, other: string, data: T)
    requires other != path
    ensures Lookup(files[path := data], other) == Lookup(files, other)
  {
  }

  /**
   * The JSON and binary cache strategies: the content stored under each path. JSON documents and
   * bytes are both opaque here.
   */
  class CacheStore<T> {
    var files: map<string, T>

    constructor (files: map<string, T>)
      ensures this.files == files
    {
      this.files := files;
    }

    /** `read(path)`. */
    method Read(path: string) returns (r: Result<T, CacheError>)
      ensures r == Lookup(files, path)
    {
      if path in files {
        r := Success(files[path]);
      } else {
        r := Failure(FileNotFound(path));
      }
    }

    /** `write(path, data)`: creates or replaces the content at `path`. */
    method Write(path: string, data: T)
      modifies this
      ensures files == old(files)[path := data]
    {
      files := files[path := data];
    }
  }
}
