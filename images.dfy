/** Image acquisition: `save_image`, which downloads a variant's image into
    an `images` directory beside the script unless the file is already
    there, and `handle_image_result`, which turns its outcome into the path
    stored as the variant's `local_image`. The file system is a map of file
    contents and a set of directories; the HTTP response to the image link
    is a parameter. */
module Images {
  import opened Wrappers

  newtype byte = x: int | 0 <= x < 256

  /** What `requests.get(href)` gives back: the status code, the body, and
      the text `raise_for_status` puts in its error. */
  datatype Response = Response(status: int, content: seq<byte>, errorText: string)

  /** The body is saved only for a 200 with a non-empty body. */
  predicate Downloaded(r: Response)
  {
    r.status == 200 && |r.content| != 0
  }

  /** `raise_for_status()` raises `HTTPError` for client and server errors. */
  predicate RaisesForStatus(status: int)
  {
    400 <= status < 600
  }

  /** The exceptions carried by a `Failure`. */
  datatype ImageError =
    | ImageExists(filename: string)   // ImageExistsError(destination_file)
    | HttpFailure(message: string)    // HTTPError(msg)

  /** `returns.result.ResultE[str]` as `save_image` builds it. */
  datatype Saved = Success(value: string) | Failure(error: ImageError)

  /** The `filename` attribute: `ImageExistsError` sets it; `HTTPError`, an
      `OSError` built from one message, leaves it `None`. */
  function Filename(e: ImageError): (r: Option<string>)
    ensures r.Some? <==> e.ImageExists?
  {
    match e
    case ImageExists(f) => Some(f)
    case HttpFailure(_) => None
  }

  /** `handle_image_result`. Its second case, `Failure(ImageExistsError)`,
      is a capture pattern that matches every `Failure`, so the `"none"`
      case is never reached; `None` (the fall-through of `save_image`)
      matches no case and gives `None`. */
  function HandleImageResult(s: Option<Saved>): (r: Option<string>)
    ensures r.Some? ==> s.Some? && (s.value == Success(r.value) || s.value == Failure(ImageExists(r.value)))
    ensures r.None? <==> s.None? || (s.value.Failure? && s.value.error.HttpFailure?)
  {
    match s
    case None => None
    case Some(Success(v)) => Some(v)
    case Some(Failure(e)) => Filename(e)
  }

  /** The literal "none" of the last case can only be a real path. */
  lemma NoneCaseUnreachable(s: Option<Saved>)
    requires s.Some? && s.value.Failure?
    ensures HandleImageResult(s) == Filename(s.value.error)
    ensures HandleImageResult(s) == Some("none") ==> s.value.error == ImageExists("none")
  {
  }

  // ---------------------------------------------------------------------
  // Paths
  // ---------------------------------------------------------------------

  /** `os.path.join(a, b)` (POSIX): an absolute `b` replaces `a`; otherwise a
      '/' is put between them unless `a` is empty or already ends with one. */
  function PathJoin(a: string, b: string): (r: string)
    ensures |b| > 0 && b[0] == '/' ==> r == b
    ensures (|b| == 0 || b[0] != '/') ==> |a| + |b| <= |r| && r[..|a|] == a && r[|r| - |b|..] == b
  {
    if |b| > 0 && b[0] == '/' then b
    else if a == [] || a[|a| - 1] == '/' then a + b
    else a + "/" + b
  }

  /** `join(dirname(__file__), "images")` */
  function ImagesDir(root: string): string
  {
    PathJoin(root, "images")
  }

  /** `join(destination_directory, filename)` */
  function Destination(root: string, filename: string): string
  {
    PathJoin(ImagesDir(root), filename)
  }

  /** A relative file name lands inside the images directory. */
  lemma DestinationInImagesDir(root: string, filename: string)
    requires filename == [] || filename[0] != '/'
    ensures Destination(root, filename) == ImagesDir(root) + "/" + filename
  {
    var d := ImagesDir(root);
    assert "images"[0] != '/';
    assert d[|d| - 6..] == "images";
    assert d[|d| - 1] == 's';
  }

  /** Two relative file names never share a destination. */
  lemma DestinationInjective(root: string, f: string, g: string)
    requires f == [] || f[0] != '/'
    requires g == [] || g[0] != '/'
    requires Destination(root, f) == Destination(root, g)
    ensures f == g
  {
    DestinationInImagesDir(root, f);
    DestinationInImagesDir(root, g);
    var p := ImagesDir(root) + "/";
    assert Destination(root, f) == p + f && Destination(root, g) == p + g;
    assert f == (p + f)[|p|..];
  }

  // ---------------------------------------------------------------------
  // save_image
  // ---------------------------------------------------------------------

  function FailureMessage(href: string, r: Response): string
  {
    "FAILURE: Failed to download image " + href + ", reason: " + r.errorText + "."
  }

  /** What `save_image` returns, given whether the destination existed:
      an existing file is a failure carrying its path; otherwise a
      completed download is a success carrying the path, a client or
      server error a failure, and anything else falls through to `None`. */
  function SaveOutcome(existed: bool, href: string, dest: string, r: Response): (o: Option<Saved>)
    ensures o.Some? && o.value.Success? <==> !existed && Downloaded(r)
    ensures existed ==> o == Some(Failure(ImageExists(dest)))
    ensures o.None? <==> !existed && !Downloaded(r) && !RaisesForStatus(r.status)
  {
    if existed then Some(Failure(ImageExists(dest)))
    else if Downloaded(r) then Some(Success(dest))
    else if RaisesForStatus(r.status) then Some(Failure(HttpFailure(FailureMessage(href, r))))
    else None
  }

  /** The `local_image` of a variant is the destination path when the file
      was already there or was just written, and `None` otherwise. */
  lemma LocalImage(existed: bool, href: string, dest: string, r: Response)
    ensures HandleImageResult(SaveOutcome(existed, href, dest, r)) ==
      if existed || Downloaded(r) then Some(dest) else None
  {
  }

  /** The file system as a value: the files and their contents, the
      directories, and the links fetched so far, in order. */
  datatype Disk = Disk(files: map<string, seq<byte>>, dirs: set<string>, fetched: seq<string>)

  /** `os.path.exists` on a disk value. */
  predicate OnDisk(d: Disk, p: string)
  {
    p in d.files || p in d.dirs
  }

  /** What `save_image` does to the file system: nothing when the
      destination exists; otherwise the images directory is created when
      missing, the link is fetched, and a completed download is written to
      the destination. Nothing is ever removed and the fetch log only
      grows. */
  function SaveEffect(d: Disk, root: string, filename: string, href: string, response: Response): (e: Disk)
    ensures d.files.Keys <= e.files.Keys && d.dirs <= e.dirs
    ensures |d.fetched| <= |e.fetched| && e.fetched[..|d.fetched|] == d.fetched
    ensures |e.fetched| <= |d.fetched| + 1 && (|e.fetched| > |d.fetched| ==> e.fetched[|d.fetched|] == href)
  {
    var dest := Destination(root, filename);
    if OnDisk(d, dest) then d
    else
      Disk(if Downloaded(response) then d.files[dest := response.content] else d.files,
           d.dirs + (if OnDisk(d, ImagesDir(root)) then {} else {ImagesDir(root)}),
           d.fetched + [href])
  }

  /** An image once saved (or found on disk) is never fetched again: saving
      the same file name a second time, whatever the link and response, changes nothing. */
  lemma SavedNotRefetched(d: Disk, root: string, filename: string, h1: string, r1: Response, h2: string, r2: Response)
    requires Downloaded(r1)
    ensures var d1 := SaveEffect(d, root, filename, h1, r1);
      && OnDisk(d1, Destination(root, filename))
      && SaveEffect(d1, root, filename, h2, r2) == d1
  {
  }

  /** The files and directories the scraper sees, and the image links it has
      fetched, in order. */
  class FileSystem {
    var files: map<string, seq<byte>>
    var dirs: set<string>
    var fetched: seq<string>

    constructor (files0: map<string, seq<byte>>, dirs0: set<string>)
      ensures files == files0 && dirs == dirs0 && fetched == []
    {
      files := files0;
      dirs := dirs0;
      fetched := [];
    }

    /** `os.path.exists` */
    predicate Exists(p: string)
      reads this
    {
      p in files || p in dirs
    }

    /** The current state as a value. */
    function State(): Disk
      reads this
    {
      Disk(files, dirs, fetched)
    }

    /** `save_image(filename, image)` with `root` for `dirname(__file__)`,
        `href` for `image['href']` and `response` for what fetching it
        returns. An existing destination is left alone and nothing is
        fetched; otherwise the images directory is created if missing, the
        link is fetched, and a completed download is written. */
    method SaveImage(root: string, filename: string, href: string, response: Response)
      returns (r: Option<Saved>)
      modifies this
      ensures r == SaveOutcome(old(Exists(Destination(root, filename))), href, Destination(root, filename), response)
      ensures State() == SaveEffect(old(State()), root, filename, href, response)
      ensures old(Exists(Destination(root, filename))) ==>
        files == old(files) && dirs == old(dirs) && fetched == old(fetched)
      ensures !old(Exists(Destination(root, filename))) ==>
        && dirs == old(dirs) + (if old(Exists(ImagesDir(root))) then {} else {ImagesDir(root)})
        && fetched == old(fetched) + [href]
        && files == if Downloaded(response) then old(files)[Destination(root, filename) := response.content] else old(files)
    {
      var directory := ImagesDir(root);
      var dest := PathJoin(directory, filename);
      if !Exists(dest) {
        if !Exists(directory) {
          dirs := dirs + {directory};
        }
        fetched := fetched + [href];
        if response.status == 200 && |response.content| != 0 {
          files := files[dest := response.content];
          r := Some(Success(dest));
        } else if 400 <= response.status < 600 {
          r := Some(Failure(HttpFailure(FailureMessage(href, response))));
        } else {
          r := None;
        }
      } else {
        r := Some(Failure(ImageExists(dest)));
      }
    }
  }
}
