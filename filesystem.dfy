/** The file system the renamer reads and writes, as a map from paths to
    entries, with the operations it performs: os.listdir, os.mkdir,
    shutil.copyfile, open(..., 'wb') and the tag library's save of a tag
    set or an embedded picture. */
module FileSystem {
  import opened Wrappers
  import opened Paths

  type Bytes = seq<bv8>

  /** The fields the renamer hands to the tag library for one track. A
      subtitle of None is not handed over at all (see SavedTags). */
  datatype AudioTags = AudioTags(
    title: Option<string>,
    artist: seq<string>,
    albumArtist: string,
    album: string,
    date: string,
    website: string,
    genre: seq<string>,
    trackNumber: string,
    discNumber: string,
    discSubtitle: Option<string>)

  /** The two container formats whose pictures the renamer embeds; any other
      format is left without a picture. */
  datatype AudioKind = Mp3 | Flac | OtherFormat

  /** A directory, or a regular file: its bytes, its tags (None when it
      has none) and its embedded pictures. */
  datatype Entry =
    | Directory
    | RegularFile(data: Bytes, tags: Option<AudioTags>, pictures: seq<Bytes>)

  type Fs = map<Path, Entry>

  /** The OSError subclasses the operations raise, with the path concerned. */
  datatype FsError =
    | NotFound(path: Path)
    | NotADirectory(path: Path)
    | IsADirectory(path: Path)
    | FileExists(path: Path)
    | SameFile(path: Path)

  /** os.path.isdir. */
  predicate IsDir(fs: Fs, p: Path) {
    p in fs && fs[p].Directory?
  }

  /** os.path.isfile. */
  predicate IsFile(fs: Fs, p: Path) {
    p in fs && fs[p].RegularFile?
  }

  /** The names os.listdir(p) returns, as a set. */
  function ChildNames(fs: Fs, p: Path): (names: set<string>)
    ensures forall name :: name in names <==> Child(p, name) in fs
  {
    var names := set q | q in fs && q.parts != [] && Parent(q) == p :: Basename(q);
    assert forall name :: Child(p, name) in fs ==> name in names by {
      forall name | Child(p, name) in fs
        ensures name in names
      {
        var q := Child(p, name);
        assert Parent(q) == p && Basename(q) == name;
      }
    }
    assert forall name :: name in names ==> Child(p, name) in fs by {
      forall name | name in names
        ensures Child(p, name) in fs
      {
        var q :| q in fs && q.parts != [] && Parent(q) == p && Basename(q) == name;
        assert q.parts == q.parts[..|q.parts| - 1] + [q.parts[|q.parts| - 1]];
        assert q == Child(p, name);
      }
    }
    names
  }

  /** The error raised when p is used as a directory but is not one. */
  function NotADirectoryError(fs: Fs, p: Path): FsError {
    if p in fs then NotADirectory(p) else NotFound(p)
  }

  /** os.listdir. */
  function ListDir(fs: Fs, p: Path): (r: Result<set<string>, FsError>)
    ensures r.Success? <==> IsDir(fs, p)
  {
    if IsDir(fs, p) then Success(ChildNames(fs, p)) else Failure(NotADirectoryError(fs, p))
  }

  /** The error, if any, of creating or truncating the regular file p
      (open(p, 'wb')): its folder must exist and p must not be a folder. */
  function CreateError(fs: Fs, p: Path): Option<FsError> {
    if p.parts == [] || IsDir(fs, p) then Some(IsADirectory(p))
    else if !IsDir(fs, Parent(p)) then Some(NotADirectoryError(fs, Parent(p)))
    else None
  }

  /** os.mkdir: creates one folder inside an existing one. */
  function MakeDir(fs: Fs, p: Path): (r: Result<Fs, FsError>)
    ensures r.Success? ==> p !in fs && r.value == fs[p := Directory]
  {
    if p in fs || p.parts == [] then Failure(FileExists(p))
    else if !IsDir(fs, Parent(p)) then Failure(NotADirectoryError(fs, Parent(p)))
    else Success(fs[p := Directory])
  }

  /** The bytes of a regular file, as open(p, 'rb').read() returns them. */
  function ReadFile(fs: Fs, p: Path): (r: Result<Bytes, FsError>)
    ensures r.Success? <==> IsFile(fs, p)
  {
    if p !in fs then Failure(NotFound(p))
    else if fs[p].Directory? then Failure(IsADirectory(p))
    else Success(fs[p].data)
  }

  /** shutil.copyfile(src, dst): dst becomes a byte-for-byte copy of src,
      tags and pictures included, since they are part of the bytes. */
  function CopyFile(fs: Fs, src: Path, dst: Path): (r: Result<Fs, FsError>)
    ensures r.Success? ==> IsFile(fs, src) && src != dst && r.value == fs[dst := fs[src]]
  {
    if src == dst && src in fs then Failure(SameFile(src))
    else if src !in fs then Failure(NotFound(src))
    else if fs[src].Directory? then Failure(IsADirectory(src))
    else match CreateError(fs, dst)
      case Some(e) => Failure(e)
      case None => Success(fs[dst := fs[src]])
  }

  /** The tags a file holds once the tag library has opened it with the
      tags `before` it already had, set every field of `written` on them and
      saved: each field is the written one, except that a subtitle of None
      is not set, so the subtitle already there is kept. */
  function SavedTags(before: Option<AudioTags>, written: AudioTags): (r: AudioTags)
    ensures r.(discSubtitle := written.discSubtitle) == written
    ensures written.discSubtitle.Some? || before.None? ==> r == written
    ensures written.discSubtitle.None? && before.Some? ==> r.discSubtitle == before.value.discSubtitle
  {
    match before
    case Some(t) => if written.discSubtitle.None? then written.(discSubtitle := t.discSubtitle) else written
    case None => written
  }

  /** Saving the same fields a second time changes nothing. */
  lemma SavedTagsIdempotent(before: Option<AudioTags>, written: AudioTags)
    ensures SavedTags(Some(SavedTags(before, written)), written) == SavedTags(before, written)
  {
  }

  /** Opening a regular file with the tag library, setting a tag set on the
      tags it already has and saving it; its bytes and pictures are kept. */
  function SetTags(fs: Fs, p: Path, tags: AudioTags): (r: Result<Fs, FsError>)
    ensures r.Success? ==> IsFile(fs, p) && r.value == fs[p := fs[p].(tags := Some(SavedTags(fs[p].tags, tags)))]
  {
    if p !in fs then Failure(NotFound(p))
    else if fs[p].Directory? then Failure(IsADirectory(p))
    else Success(fs[p := fs[p].(tags := Some(SavedTags(fs[p].tags, tags)))])
  }

  /** Embedding a front-cover picture and saving: an MP3 file gains one
      more picture frame (the new frame is stored under the bare key APIC,
      beside any frame it was loaded with), a FLAC file one more picture
      block, and any other format is left as it is. */
  function AddPicture(fs: Fs, p: Path, kind: AudioKind, picture: Bytes): (r: Result<Fs, FsError>)
    ensures r.Success? ==> IsFile(fs, p) && r.value.Keys == fs.Keys
    ensures r.Success? ==> forall q :: q in fs && q != p ==> r.value[q] == fs[q]
    ensures r.Success? ==> r.value[p].RegularFile? && r.value[p].data == fs[p].data && r.value[p].tags == fs[p].tags
    ensures r.Success? && kind != OtherFormat ==> r.value[p].pictures == fs[p].pictures + [picture]
    ensures r.Success? && kind == OtherFormat ==> r.value == fs
  {
    if p !in fs then Failure(NotFound(p))
    else if fs[p].Directory? then Failure(IsADirectory(p))
    else match kind
      case Mp3 | Flac => Success(fs[p := fs[p].(pictures := fs[p].pictures + [picture])])
      case OtherFormat => Success(fs)
  }
}
