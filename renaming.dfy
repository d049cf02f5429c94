/** The Renamer of renamer.py: for every folder the scanner finds whose
    name carries a DLsite product code, it fetches the work's metadata,
    builds dest/maker/work, downloads the cover there, and then, folder by
    folder and asking the user at each step, copies the flac and mp3 files
    in, tagging each with the work's metadata and its track and disc
    numbers and embedding the cover. */
module Renaming {
  import opened Wrappers
  import opened Text
  import opened Order
  import opened Paths
  import opened FileSystem
  import Scaner
  import opened ConsoleUtils
  import opened Naming
  import opened TagSelection

  /** The template a Renamer gets when none is given. */
  const DefaultTemplate: string := "[maker_name][rjcode] work_name cv_list_str"

  /** The field a template must mention, so that a new name keeps the code. */
  const CodeField: string := "rjcode"

  /** The cover's file name inside the work folder. */
  const CoverName: string := "cover.jpg"

  /** The audio groups of a folder, in the order they are offered. */
  const AudioExtensions: seq<string> := ["flac", "mp3"]

  /** The fixed part of the work page URL written as the website tag. */
  const WorkPagePrefix: string := "https://www.dlsite.com/maniax/work/=/product_id/"

  /** The tags option: the ordered list of rules and the maximum number of
      genres. */
  datatype TagsOption = TagsOption(orderedList: seq<TagRule>, maxNumber: int)

  /** The fields of the scraper's WorkMetadata that the renamer reads. */
  datatype WorkMetadata = WorkMetadata(
    rjcode: string,
    workName: string,
    makerName: string,
    releaseDate: string,
    cvs: seq<string>,
    tags: seq<string>,
    coverUrl: string)

  /** How scrape_metadata ends: with the metadata, or with one of the
      request exceptions the renamer tells apart. */
  datatype ScrapeOutcome =
    | Scraped(metadata: WorkMetadata)
    | Timeout
    | ConnectionError(message: string)
    | HTTPError(status: int, reason: string)
    | OtherRequestError(message: string)

  /** How the cover request ends: with the whole body, or failing after
      `partial` has been written. */
  datatype DownloadOutcome = Downloaded(data: Bytes) | DownloadFailed(partial: Bytes)

  /** The collaborators outside the core: the product-code parser, the
      scraper and the cover request. */
  datatype Services = Services(
    parseCode: string -> Option<string>,
    scrape: string -> ScrapeOutcome,
    download: string -> DownloadOutcome)

  /** The exceptions that end a renaming run. */
  datatype Failure =
    | FsFailure(error: FsError)
    | CoverDownloadFailure(url: string, path: Path)
    | EndOfInput

  /** A step that changes the file system and either completes with a
      value or raises, leaving the file system as it was when it raised. */
  datatype Outcome<T> = Done(fs: Fs, value: T) | Aborted(fs: Fs, failure: Failure)

  /** Where a stage of __process_folder leaves a work: the file system, the
      unread console lines and the disc counter, or the failure that ended
      it. */
  datatype Progress = Progressed(fs: Fs, lines: seq<string>, disc: int) | Halted(fs: Fs, failure: Failure)

  datatype Level = Info | Warning | Error

  /** What a log record reports; the wording of the messages is not
      modelled. */
  datatype Event =
    | FolderFound(folder: Path)
    | RequestTimedOut
    | ConnectionFailed(message: string)
    | HttpStatus(status: int, reason: string)
    | RequestFailed(message: string)
    | Processing
    | CreatingFolders
    | DownloadingCover
    | StartingInteractive
    | Failed(failure: Failure)
    | Renamed

  datatype LogEntry = LogEntry(level: Level, code: string, event: Event)

  /** The state of a run of rename: the file system, the console lines not
      yet read, the log so far, and the failure that ended the run, if any. */
  datatype RenameRun = RenameRun(fs: Fs, input: seq<string>, log: seq<LogEntry>, failure: Option<Failure>)

  /** The ValueError of a template that does not mention the code. */
  datatype ConfigError = TemplateWithoutCode

  // ---------------------------------------------------------------------
  // Frames: which entries a step may add or alter

  /** p is added by the step from fs to fs2, or altered by it. */
  ghost predicate Changed(fs: Fs, fs2: Fs, p: Path) {
    p in fs2 && (p !in fs || fs2[p] != fs[p])
  }

  /** No entry is removed. */
  ghost predicate Grows(fs: Fs, fs2: Fs) {
    forall p :: p in fs ==> p in fs2
  }

  /** Every entry added or altered is a child of `folder` named in `names`. */
  ghost predicate ChangedOnlyAmong(fs: Fs, fs2: Fs, folder: Path, names: seq<string>) {
    && Grows(fs, fs2)
    && forall p :: Changed(fs, fs2, p) ==> p.parts != [] && Parent(p) == folder && Basename(p) in names
  }

  /** Every entry added or altered is a child of `folder`. */
  ghost predicate ChangedOnlyInside(fs: Fs, fs2: Fs, folder: Path) {
    && Grows(fs, fs2)
    && forall p :: Changed(fs, fs2, p) ==> p.parts != [] && Parent(p) == folder
  }

  /** Every entry added or altered lies at or below `top`. */
  ghost predicate ChangedOnlyBelow(fs: Fs, fs2: Fs, top: Path) {
    && Grows(fs, fs2)
    && forall p :: Changed(fs, fs2, p) ==> IsPrefix(top, p)
  }

  lemma AmongTransitive(fs1: Fs, fs2: Fs, fs3: Fs, folder: Path, a: seq<string>, b: seq<string>, c: seq<string>)
    requires ChangedOnlyAmong(fs1, fs2, folder, a) && ChangedOnlyAmong(fs2, fs3, folder, b)
    requires forall n :: n in a || n in b ==> n in c
    ensures ChangedOnlyAmong(fs1, fs3, folder, c)
  {
    forall p | Changed(fs1, fs3, p)
      ensures p.parts != [] && Parent(p) == folder && Basename(p) in c
    {
      if !Changed(fs2, fs3, p) {
        assert Changed(fs1, fs2, p);
      }
    }
  }

  lemma InsideTransitive(fs1: Fs, fs2: Fs, fs3: Fs, folder: Path)
    requires ChangedOnlyInside(fs1, fs2, folder) && ChangedOnlyInside(fs2, fs3, folder)
    ensures ChangedOnlyInside(fs1, fs3, folder)
  {
    forall p | Changed(fs1, fs3, p)
      ensures p.parts != [] && Parent(p) == folder
    {
      if !Changed(fs2, fs3, p) {
        assert Changed(fs1, fs2, p);
      }
    }
  }

  lemma BelowTransitive(fs1: Fs, fs2: Fs, fs3: Fs, top: Path)
    requires ChangedOnlyBelow(fs1, fs2, top) && ChangedOnlyBelow(fs2, fs3, top)
    ensures ChangedOnlyBelow(fs1, fs3, top)
  {
    forall p | Changed(fs1, fs3, p)
      ensures IsPrefix(top, p)
    {
      if !Changed(fs2, fs3, p) {
        assert Changed(fs1, fs2, p);
      }
    }
  }

  /** Changes inside a folder lie below any folder that contains it. */
  lemma InsideIsBelow(fs: Fs, fs2: Fs, folder: Path, top: Path)
    requires ChangedOnlyInside(fs, fs2, folder) && IsPrefix(top, folder)
    ensures ChangedOnlyBelow(fs, fs2, top)
  {
    forall p | Changed(fs, fs2, p)
      ensures IsPrefix(top, p)
    {
      IsPrefixParent(p);
      IsPrefixTransitive(top, folder, p);
    }
  }

  // ---------------------------------------------------------------------
  // Construction

  datatype Renamer = Renamer(
    scaner: Scaner.Scaner,
    template: string,
    delimiter: string,
    excludeBrackets: bool,
    toFullwidth: bool,
    tagsOption: TagsOption)
  {
    // -------------------------------------------------------------------
    // __mkdir

    /** dest joined with the sanitized maker name. */
    function MakerFolder(meta: WorkMetadata, dest: Path): Path {
      JoinName(dest, CompileNewName(meta.makerName, toFullwidth))
    }

    /** The maker folder joined with the sanitized, cleaned-up work name. */
    function WorkFolder(meta: WorkMetadata, dest: Path): (r: Path)
      ensures IsPrefix(dest, MakerFolder(meta, dest)) && IsPrefix(dest, r)
    {
      var maker := MakerFolder(meta, dest);
      IsPrefixJoinName(dest, CompileNewName(meta.makerName, toFullwidth));
      var work := CompileNewName(CleanupWorkName(meta.workName, excludeBrackets), toFullwidth);
      IsPrefixJoinName(maker, work);
      IsPrefixTransitive(dest, maker, JoinName(maker, work));
      JoinName(maker, work)
    }

    /** What __mkdir does: it answers the work folder, having created the
        maker folder and then the work folder where nothing exists yet;
        nothing that exists is altered, and the only entries added are
        those two folders. */
    function MkdirSpec(fs: Fs, meta: WorkMetadata, dest: Path): (r: Outcome<Path>)
      ensures r.Done? ==> r.value == WorkFolder(meta, dest) && r.value in r.fs
      ensures forall p :: p in fs ==> p in r.fs && r.fs[p] == fs[p]
      ensures forall p :: p in r.fs && p !in fs ==>
        r.fs[p] == Directory && (p == MakerFolder(meta, dest) || p == WorkFolder(meta, dest))
    {
      var maker := MakerFolder(meta, dest);
      var work := WorkFolder(meta, dest);
      var first := EnsureDir(fs, maker);
      if first.Aborted? then Aborted(first.fs, first.failure)
      else
        var second := EnsureDir(first.fs, work);
        if second.Aborted? then Aborted(second.fs, second.failure)
        else Done(second.fs, work)
    }

    /** When both folders exist already, __mkdir changes nothing. */
    lemma MkdirExisting(fs: Fs, meta: WorkMetadata, dest: Path)
      requires MakerFolder(meta, dest) in fs && WorkFolder(meta, dest) in fs
      ensures MkdirSpec(fs, meta, dest) == Done(fs, WorkFolder(meta, dest))
    {
    }

    /** Everything __mkdir adds lies below dest. */
    lemma MkdirBelow(fs: Fs, meta: WorkMetadata, dest: Path)
      ensures ChangedOnlyBelow(fs, MkdirSpec(fs, meta, dest).fs, dest)
    {
      var fs2 := MkdirSpec(fs, meta, dest).fs;
      forall p | Changed(fs, fs2, p)
        ensures IsPrefix(dest, p)
      {
        assert p == MakerFolder(meta, dest) || p == WorkFolder(meta, dest);
      }
    }

    /** Renamer.__mkdir. */
    method Mkdir(fs: Fs, meta: WorkMetadata, dest: Path) returns (out: Outcome<Path>)
      ensures out == MkdirSpec(fs, meta, dest)
    {
      var current := fs;
      var path := JoinName(dest, CompileNewName(meta.makerName, toFullwidth));
      ghost var first := EnsureDir(fs, path);
      if path !in current {
        var made := MakeDir(current, path);
        if made.Failure? {
          assert first == Aborted(fs, FsFailure(made.error));
          assert MkdirSpec(fs, meta, dest) == Aborted(first.fs, first.failure);
          return Aborted(current, FsFailure(made.error));
        }
        current := made.value;
      }
      assert first == Done(current, ());
      ghost var afterFirst := current;
      path := JoinName(path, CompileNewName(CleanupWorkName(meta.workName, excludeBrackets), toFullwidth));
      assert path == WorkFolder(meta, dest);
      ghost var second := EnsureDir(current, path);
      if path !in current {
        var made := MakeDir(current, path);
        if made.Failure? {
          assert second == Aborted(current, FsFailure(made.error));
          assert MkdirSpec(fs, meta, dest) == Aborted(second.fs, second.failure);
          return Aborted(current, FsFailure(made.error));
        }
        current := made.value;
      }
      assert second == Done(current, ());
      assert second == EnsureDir(first.fs, WorkFolder(meta, dest)) by {
        assert first.fs == afterFirst;
      }
      assert MkdirSpec(fs, meta, dest) == Done(second.fs, path);
      return Done(current, path);
    }

    // -------------------------------------------------------------------
    // __write_tag

    /** The tags __write_tag sets on one track: the work's voice actors as
        artists, its maker as album artist, its cleaned-up name as album,
        its release date, its page, the selected genres, and the track and
        disc numbers as text; the subtitle only when there is one. */
    function TrackTags(meta: WorkMetadata, title: Option<string>, track: int, disc: int, subtitle: Option<string>): (t: AudioTags)
      ensures t.title == title && t.discSubtitle == subtitle
      ensures t.artist == meta.cvs && t.albumArtist == meta.makerName && t.date == meta.releaseDate
      ensures t.album == CleanupWorkName(meta.workName, excludeBrackets)
      ensures t.trackNumber == IntToString(track) && t.discNumber == IntToString(disc)
      ensures ParseInt(t.trackNumber) == Some(track) && ParseInt(t.discNumber) == Some(disc)
      ensures t.website == WorkPagePrefix + meta.rjcode + ".html"
      ensures StartsWith(t.website, WorkPagePrefix) && EndsWith(t.website, meta.rjcode + ".html")
      ensures t.genre == SelectTags(meta.tags, tagsOption.orderedList, tagsOption.maxNumber)
      ensures tagsOption.maxNumber >= 0 ==> |t.genre| <= tagsOption.maxNumber
    {
      ParseIntToString(track);
      ParseIntToString(disc);
      var website := WorkPagePrefix + meta.rjcode + ".html";
      assert website[..|WorkPagePrefix|] == WorkPagePrefix;
      assert website[|website| - |meta.rjcode + ".html"|..] == meta.rjcode + ".html";
      SelectTagsBound(meta.tags, tagsOption.orderedList, if tagsOption.maxNumber >= 0 then tagsOption.maxNumber else 0);
      AudioTags(
        title := title,
        artist := meta.cvs,
        albumArtist := meta.makerName,
        album := CleanupWorkName(meta.workName, excludeBrackets),
        date := meta.releaseDate,
        website := website,
        genre := SelectTags(meta.tags, tagsOption.orderedList, tagsOption.maxNumber),
        trackNumber := IntToString(track),
        discNumber := IntToString(disc),
        discSubtitle := subtitle)
    }

    // -------------------------------------------------------------------
    // __process_folder

    /** The tags of the files `audio` of one group, in order: the i-th file
        is track i + 1 of the chosen disc. */
    function GroupTags(meta: WorkMetadata, audio: seq<string>, disc: int, subtitle: Option<string>): seq<AudioTags> {
      seq(|audio|, i requires 0 <= i < |audio| => TrackTags(meta, SniffName(audio[i]), i + 1, disc, subtitle))
    }

    /** One extension group of a folder: nothing happens when the folder has
        no such file or the user declines them; otherwise the user picks the
        disc number (blank or unparsable keeps the counter) and the subtitle,
        the files are copied, and the counter becomes the chosen number + 1.
        The value is the unread console lines and the counter. */
    function ProcessGroup(fs: Fs, lines: seq<string>, meta: WorkMetadata, source: Path, target: Path,
                          listed: set<string>, ext: string, disc: int): (r: Progress)
      ensures ChangedOnlyInside(fs, r.fs, target)
    {
      var audio := AudioFiles(fs, source, listed, ext);
      if audio == [] then Progressed(fs, lines, disc)
      else
        var prompts := GroupPrompts(lines, disc, SniffNameFromFolder(Basename(source)));
        if prompts.GroupUnanswered? then Halted(fs, EndOfInput)
        else
          var choice, k := prompts.choice, prompts.used;
          if choice.Skip? then Progressed(fs, lines[k..], disc)
          else CopyGroup(fs, lines[k..], meta, source, target, audio, choice.disc, choice.subtitle)
    }

    /** A group the user adds: its files are copied with track numbers from
        1, and the counter becomes the chosen number + 1. */
    function CopyGroup(fs: Fs, lines: seq<string>, meta: WorkMetadata, source: Path, target: Path,
                       audio: seq<string>, disc: int, subtitle: Option<string>): (r: Progress)
      ensures ChangedOnlyInside(fs, r.fs, target)
    {
      var copied := CopyTracks(fs, source, target, audio, GroupTags(meta, audio, disc, subtitle));
      AmongIsInside(fs, copied.fs, target, audio);
      if copied.Aborted? then Halted(copied.fs, copied.failure)
      else Progressed(copied.fs, lines, disc + 1)
    }

    /** The groups `exts` in turn, threading the console and the counter. */
    function ProcessGroups(fs: Fs, lines: seq<string>, meta: WorkMetadata, source: Path, target: Path,
                           listed: set<string>, exts: seq<string>, disc: int): (r: Progress)
      ensures ChangedOnlyInside(fs, r.fs, target)
      decreases |exts|
    {
      if exts == [] then Progressed(fs, lines, disc)
      else
        var first := ProcessGroup(fs, lines, meta, source, target, listed, exts[0], disc);
        if first.Halted? then first
        else
          var r := ProcessGroups(first.fs, first.lines, meta, source, target, listed, exts[1..], first.disc);
          InsideTransitive(fs, first.fs, r.fs, target);
          r
    }

    /** What __process_folder does: the folder is listed once, then the
        flac group and the mp3 group are handled in that order; only
        children of the target folder are added or altered. */
    function ProcessFolderSpec(fs: Fs, lines: seq<string>, meta: WorkMetadata, source: Path, target: Path,
                               disc: int): (r: Progress)
      ensures ChangedOnlyInside(fs, r.fs, target)
    {
      match ListDir(fs, source)
      case Failure(e) => Halted(fs, FsFailure(e))
      case Success(listed) => ProcessGroups(fs, lines, meta, source, target, listed, AudioExtensions, disc)
    }

    /** A group without files, or one the user declines, changes nothing,
        and the counter is kept. */
    lemma GroupSkipped(fs: Fs, lines: seq<string>, meta: WorkMetadata, source: Path, target: Path,
                       listed: set<string>, ext: string, disc: int)
      requires AudioFiles(fs, source, listed, ext) == [] || (YesNoReply(lines).Answered? && !YesNoReply(lines).yes)
      ensures var r := ProcessGroup(fs, lines, meta, source, target, listed, ext, disc);
        && r.Progressed? && r.fs == fs && r.disc == disc
        && (AudioFiles(fs, source, listed, ext) == [] ==> r.lines == lines)
        && (AudioFiles(fs, source, listed, ext) != [] ==> r.lines == lines[YesNoReply(lines).used..])
    {
    }

    /** A group the user adds: its files, in sorted order, are copied and
        numbered 1..N with the chosen disc number and, when there is one,
        the chosen subtitle (otherwise each copy keeps its source's), and
        the counter becomes the chosen number + 1. */
    lemma GroupTaken(fs: Fs, lines: seq<string>, meta: WorkMetadata, source: Path, target: Path,
                     listed: set<string>, ext: string, disc: int)
      requires AudioFiles(fs, source, listed, ext) != []
      requires GroupPrompts(lines, disc, SniffNameFromFolder(Basename(source))).Decided?
      requires GroupPrompts(lines, disc, SniffNameFromFolder(Basename(source))).choice.Take?
      requires ProcessGroup(fs, lines, meta, source, target, listed, ext, disc).Progressed?
      ensures var audio := AudioFiles(fs, source, listed, ext);
        var choice := GroupPrompts(lines, disc, SniffNameFromFolder(Basename(source))).choice;
        var r := ProcessGroup(fs, lines, meta, source, target, listed, ext, disc);
        && r.disc == choice.disc + 1
        && forall i :: 0 <= i < |audio| ==>
          && IsFile(fs, Child(source, audio[i]))
          && IsFile(r.fs, Child(target, audio[i]))
          && r.fs[Child(target, audio[i])].tags
             == Some(SavedTags(fs[Child(source, audio[i])].tags, TrackTags(meta, SniffName(audio[i]), i + 1, choice.disc, choice.subtitle)))
    {
      var audio := AudioFiles(fs, source, listed, ext);
      var choice := GroupPrompts(lines, disc, SniffNameFromFolder(Basename(source))).choice;
      forall i, j | 0 <= i < j < |audio|
        ensures audio[i] != audio[j]
      {
        LessIrreflexive(audio[i]);
      }
      var tags := GroupTags(meta, audio, choice.disc, choice.subtitle);
      forall i | 0 <= i < |audio|
        ensures var r := CopyTracks(fs, source, target, audio, tags).fs;
          && IsFile(fs, Child(source, audio[i]))
          && IsFile(r, Child(target, audio[i]))
          && r[Child(target, audio[i])].tags
             == Some(SavedTags(fs[Child(source, audio[i])].tags, TrackTags(meta, SniffName(audio[i]), i + 1, choice.disc, choice.subtitle)))
      {
        TrackNumbered(fs, source, target, audio, tags, i);
      }
    }

    /** The copy loop of __process_folder for one group: copy, tag and embed
        the cover for each file in order, track numbers counting from 1. */
    method CopyFiles(fs: Fs, meta: WorkMetadata, source: Path, target: Path, audio: seq<string>,
                     disc: int, subtitle: Option<string>) returns (out: Outcome<()>)
      ensures out == CopyTracks(fs, source, target, audio, GroupTags(meta, audio, disc, subtitle))
    {
      ghost var all := GroupTags(meta, audio, disc, subtitle);
      var current := fs;
      var i := 0;
      assert audio[i..] == audio && all[i..] == all;
      while i < |audio|
        invariant 0 <= i <= |audio|
        invariant CopyTracks(current, source, target, audio[i..], all[i..]) == CopyTracks(fs, source, target, audio, all)
      {
        var name := audio[i];
        assert audio[i..][1..] == audio[i + 1..] && all[i..][1..] == all[i + 1..];
        var genre := ReplaceTags(meta.tags, tagsOption.orderedList, tagsOption.maxNumber);
        var tags := TrackTags(meta, SniffName(name), i + 1, disc, subtitle);
        assert tags.genre == genre && tags == all[i];
        var dst := CopyDestination(target, name);
        var copied := CopyFile(current, Child(source, name), dst);
        if copied.Failure? {
          return Aborted(current, FsFailure(copied.error));
        }
        var tagged := SetTags(copied.value, dst, tags);
        if tagged.Failure? {
          return Aborted(copied.value, FsFailure(tagged.error));
        }
        var embedded := EmbedCover(tagged.value, Child(target, CoverName), dst);
        if embedded.Failure? {
          return Aborted(tagged.value, FsFailure(embedded.error));
        }
        current := embedded.value;
        i := i + 1;
      }
      return Done(current, ());
    }

    /** One pass of the loop of __process_folder over the extensions. */
    method HandleGroup(fs: Fs, lines: seq<string>, meta: WorkMetadata, source: Path, target: Path,
                       listed: set<string>, ext: string, disc: int) returns (out: Progress)
      ensures out == ProcessGroup(fs, lines, meta, source, target, listed, ext, disc)
    {
      var audio := AudioFiles(fs, source, listed, ext);
      if audio == [] {
        return Progressed(fs, lines, disc);
      }
      var prompts := AskGroup(lines, disc, SniffNameFromFolder(Basename(source)));
      if prompts.GroupUnanswered? {
        return Halted(fs, EndOfInput);
      }
      var choice, used := prompts.choice, prompts.used;
      if choice.Skip? {
        return Progressed(fs, lines[used..], disc);
      }
      var copied := CopyFiles(fs, meta, source, target, audio, choice.disc, choice.subtitle);
      if copied.Aborted? {
        return Halted(copied.fs, copied.failure);
      }
      return Progressed(copied.fs, lines[used..], choice.disc + 1);
    }

    /** The prompts of __process_folder for one group. */
    method AskGroup(lines: seq<string>, disc: int, sniffed: Option<string>) returns (r: GroupAnswer)
      ensures r == GroupPrompts(lines, disc, sniffed)
    {
      var add := AskYesNo(lines);
      if add.Unanswered? {
        return GroupUnanswered;
      }
      if !add.yes {
        return Decided(Skip, add.used);
      }
      var take := AskTake(lines[add.used..], disc, sniffed);
      if take.GroupUnanswered? {
        return GroupUnanswered;
      }
      return Decided(take.choice, add.used + take.used);
    }

    /** The disc-number and subtitle prompts for a group the user adds. */
    method AskTake(lines: seq<string>, disc: int, sniffed: Option<string>) returns (r: GroupAnswer)
      ensures r == TakePrompts(lines, disc, sniffed)
    {
      var chosen := AskDisc(lines, disc);
      if chosen.DiscUnanswered? {
        return GroupUnanswered;
      }
      var subtitle := AskSubtitle(lines[chosen.used..], sniffed);
      if subtitle.SubtitleUnanswered? {
        return GroupUnanswered;
      }
      return Decided(Take(chosen.disc, subtitle.subtitle), chosen.used + subtitle.used);
    }

    /** The disc-number prompt of __process_folder. */
    method AskDisc(lines: seq<string>, disc: int) returns (r: DiscAnswer)
      ensures r == ChooseDisc(lines, disc)
    {
      var reply := AskInput(lines, Some(IntToString(disc)));
      if reply.NoReply? {
        return DiscUnanswered;
      }
      var chosen := disc;
      var parsed := ParseInt(reply.text);
      if parsed.Some? {
        chosen := parsed.value;
      }
      return DiscChosen(chosen, reply.used);
    }

    /** The subtitle prompts of __process_folder. */
    method AskSubtitle(lines: seq<string>, sniffed: Option<string>) returns (r: SubtitleAnswer)
      ensures r == ChooseSubtitle(lines, sniffed)
    {
      var keep := AskYesNo(lines);
      if keep.Unanswered? {
        return SubtitleUnanswered;
      }
      if keep.yes {
        return SubtitleChosen(sniffed, keep.used);
      }
      var typed := AskInput(lines[keep.used..], Some(""));
      if typed.NoReply? {
        return SubtitleUnanswered;
      }
      var subtitle := if typed.text == "" then None else Some(typed.text);
      return SubtitleChosen(subtitle, keep.used + typed.used);
    }

    /** Renamer.__process_folder. */
    method ProcessFolder(fs: Fs, lines: seq<string>, meta: WorkMetadata, source: Path, target: Path,
                         disc: int) returns (out: Progress)
      ensures out == ProcessFolderSpec(fs, lines, meta, source, target, disc)
    {
      var listing := ListDir(fs, source);
      if listing.Failure? {
        return Halted(fs, FsFailure(listing.error));
      }
      var files := listing.value;
      var current, input, counter := fs, lines, disc;
      var g := 0;
      assert AudioExtensions[g..] == AudioExtensions;
      while g < |AudioExtensions|
        invariant 0 <= g <= |AudioExtensions|
        invariant ProcessGroups(current, input, meta, source, target, files, AudioExtensions[g..], counter)
               == ProcessGroups(fs, lines, meta, source, target, files, AudioExtensions, disc)
      {
        assert AudioExtensions[g..][1..] == AudioExtensions[g + 1..];
        var handled := HandleGroup(current, input, meta, source, target, files, AudioExtensions[g], counter);
        if handled.Halted? {
          return handled;
        }
        current, input, counter := handled.fs, handled.lines, handled.disc;
        g := g + 1;
      }
      return Progressed(current, input, counter);
    }

    // -------------------------------------------------------------------
    // rename

    /** The scanned folders of a work in turn, threading the console and the
        disc counter through __process_folder. */
    function ProcessSources(fs: Fs, lines: seq<string>, meta: WorkMetadata, sources: seq<Path>, target: Path,
                            disc: int): (r: Progress)
      ensures ChangedOnlyInside(fs, r.fs, target)
      decreases |sources|
    {
      if sources == [] then Progressed(fs, lines, disc)
      else
        var first := ProcessFolderSpec(fs, lines, meta, sources[0], target, disc);
        if first.Halted? then first
        else
          var r := ProcessSources(first.fs, first.lines, meta, sources[1..], target, first.disc);
          InsideTransitive(fs, first.fs, r.fs, target);
          r
    }

    /** The later stages of one work, once its metadata is in: the folders,
        the cover, then every scanned folder of the work with the counter
        starting at 1; the first failure is logged as an error and ends the
        run. The work's records follow those already logged. */
    function ProduceWork(run: RenameRun, code: string, meta: WorkMetadata, folder: Path, dest: Path,
                         services: Services): (r: RenameRun)
      ensures |run.log| <= |r.log| && r.log[..|run.log|] == run.log
      ensures r.failure.None? ==> r.log[|run.log|..] == [
        LogEntry(Info, code, Processing), LogEntry(Info, code, CreatingFolders),
        LogEntry(Info, code, DownloadingCover), LogEntry(Info, code, StartingInteractive),
        LogEntry(Info, code, Renamed)]
      ensures r.failure.Some? ==> r.input == run.input
    {
      var end := RunStages(run.fs, run.input, meta, folder, dest, services);
      var added := WorkLog(code, end.reached, end.failure);
      assert (run.log + added)[..|run.log|] == run.log && (run.log + added)[|run.log|..] == added;
      RenameRun(end.fs, end.input, run.log + added, end.failure)
    }

    /** The stages of one work: making its folders (stage 0), fetching the
        cover (stage 1), processing its scanned folders (stage 2). On a
        failure the unread console is left as it was. */
    function RunStages(fs: Fs, input: seq<string>, meta: WorkMetadata, folder: Path, dest: Path,
                       services: Services): (r: StagesEnd)
      ensures r.failure.None? ==> r.reached == 2
      ensures r.failure.Some? ==> r.input == input
    {
      var made := MkdirSpec(fs, meta, dest);
      if made.Aborted? then StagesEnd(made.fs, input, 0, Some(made.failure))
      else
        var target := made.value;
        var cover := DownloadCover(made.fs, meta.coverUrl, target, services.download(meta.coverUrl));
        if cover.Aborted? then StagesEnd(cover.fs, input, 1, Some(cover.failure))
        else
          var processed := ProcessSources(cover.fs, input, meta, scaner.Scan(cover.fs, folder, 0), target, 1);
          if processed.Halted? then StagesEnd(processed.fs, input, 2, Some(processed.failure))
          else StagesEnd(processed.fs, processed.lines, 2, None)
    }

    /** Producing a work adds or alters entries below dest only. */
    lemma ProduceWorkBelow(run: RenameRun, code: string, meta: WorkMetadata, folder: Path, dest: Path,
                           services: Services)
      ensures ChangedOnlyBelow(run.fs, ProduceWork(run, code, meta, folder, dest, services).fs, dest)
    {
      var made := MkdirSpec(run.fs, meta, dest);
      MkdirBelow(run.fs, meta, dest);
      if made.Done? {
        var target := made.value;
        var cover := DownloadCover(made.fs, meta.coverUrl, target, services.download(meta.coverUrl));
        CoverIsBelow(made.fs, cover.fs, target, dest);
        BelowTransitive(run.fs, made.fs, cover.fs, dest);
        if cover.Done? {
          var processed := ProcessSources(cover.fs, run.input, meta, scaner.Scan(cover.fs, folder, 0), target, 1);
          InsideIsBelow(cover.fs, processed.fs, target, dest);
          BelowTransitive(run.fs, cover.fs, processed.fs, dest);
        }
      }
    }

    /** Producing a work extends the log, and its last record is the
        failure, at error level, or the success. */
    lemma ProduceWorkLog(run: RenameRun, code: string, meta: WorkMetadata, folder: Path, dest: Path,
                         services: Services)
      ensures run.log < ProduceWork(run, code, meta, folder, dest, services).log
      ensures var r := ProduceWork(run, code, meta, folder, dest, services);
        && (r.failure.Some? ==> r.log[|r.log| - 1] == LogEntry(Error, code, Failed(r.failure.value)))
        && (r.failure.None? ==> r.log[|r.log| - 1] == LogEntry(Info, code, Renamed))
    {
      var end := RunStages(run.fs, run.input, meta, folder, dest, services);
      LogExtended(run.log, WorkLog(code, end.reached, end.failure));
    }

    /** One folder of the loop in rename: a folder without a product code in
        its name is skipped untouched; a request failure of the scraper is
        logged (a timeout, a connection error or an HTTP error as a warning,
        any other as an error) and the loop goes on; otherwise the work is
        produced. */
    function ProcessWork(run: RenameRun, folder: Path, dest: Path, services: Services): (r: RenameRun)
      ensures ChangedOnlyBelow(run.fs, r.fs, dest)
      ensures run.log <= r.log
    {
      match services.parseCode(Basename(folder))
      case None => run
      case Some(code) =>
        if code == "" then run
        else
          var found := run.log + [LogEntry(Info, code, FolderFound(folder))];
          match services.scrape(code)
          case Timeout => run.(log := found + [LogEntry(Warning, code, RequestTimedOut)])
          case ConnectionError(m) => run.(log := found + [LogEntry(Warning, code, ConnectionFailed(m))])
          case HTTPError(status, reason) => run.(log := found + [LogEntry(Warning, code, HttpStatus(status, reason))])
          case OtherRequestError(m) => run.(log := found + [LogEntry(Error, code, RequestFailed(m))])
          case Scraped(meta) =>
            ProduceWorkBelow(run.(log := found), code, meta, folder, dest, services);
            ProduceWorkLog(run.(log := found), code, meta, folder, dest, services);
            ProduceWork(run.(log := found), code, meta, folder, dest, services)
    }

    /** A folder whose name yields no product code is passed over: nothing
        is created, read from the console or logged. */
    lemma NoCodeSkipped(run: RenameRun, folder: Path, dest: Path, services: Services)
      requires services.parseCode(Basename(folder)).None? || services.parseCode(Basename(folder)).value == ""
      ensures ProcessWork(run, folder, dest, services) == run
    {
    }

    /** A failed metadata request is logged, a timeout, a connection error
        or an HTTP error as a warning and any other request error as an
        error, after the record of the folder found; the file system, the
        console and the run's outcome are untouched, so the loop goes on. */
    lemma ScrapeFailureLogged(run: RenameRun, folder: Path, dest: Path, services: Services)
      requires services.parseCode(Basename(folder)).Some? && services.parseCode(Basename(folder)).value != ""
      requires !services.scrape(services.parseCode(Basename(folder)).value).Scraped?
      ensures var code := services.parseCode(Basename(folder)).value;
        var r := ProcessWork(run, folder, dest, services);
        && r.fs == run.fs && r.input == run.input && r.failure == run.failure
        && |r.log| == |run.log| + 2 && r.log[..|run.log|] == run.log
        && r.log[|run.log|] == LogEntry(Info, code, FolderFound(folder))
        && r.log[|run.log| + 1].level == (if services.scrape(code).OtherRequestError? then Error else Warning)
    {
      var r := ProcessWork(run, folder, dest, services);
      assert r.log[..|run.log|] == run.log;
    }

    /** The loop of rename over the scanned folders, which a failure ends. */
    function RenameFolders(run: RenameRun, folders: seq<Path>, dest: Path, services: Services): (r: RenameRun)
      ensures run.failure.Some? ==> r == run
      ensures ChangedOnlyBelow(run.fs, r.fs, dest)
      ensures run.log <= r.log
      decreases |folders|
    {
      if folders == [] || run.failure.Some? then
        IsPrefixJoinName(dest, "");
        run
      else
        var next := ProcessWork(run, folders[0], dest, services);
        var r := RenameFolders(next, folders[1..], dest, services);
        BelowTransitive(run.fs, next.fs, r.fs, dest);
        r
    }

    /** What rename(root, dest) does, starting from an empty log: the
        folders are those the scanner yields for root. Everything it adds or
        alters lies below dest. */
    function RenameSpec(fs: Fs, input: seq<string>, root: Path, dest: Path, services: Services): (r: RenameRun)
      ensures ChangedOnlyBelow(fs, r.fs, dest)
    {
      RenameFolders(RenameRun(fs, input, [], None), scaner.Scan(fs, root, 0), dest, services)
    }

    /** The later stages of the body of the loop in rename. */
    method Produce(run: RenameRun, code: string, meta: WorkMetadata, folder: Path, dest: Path,
                   services: Services) returns (next: RenameRun)
      ensures next == ProduceWork(run, code, meta, folder, dest, services)
    {
      var made := Mkdir(run.fs, meta, dest);
      if made.Aborted? {
        return RenameRun(made.fs, run.input, run.log + WorkLog(code, 0, Some(made.failure)), Some(made.failure));
      }
      var target := made.value;
      var cover := DownloadCover(made.fs, meta.coverUrl, target, services.download(meta.coverUrl));
      if cover.Aborted? {
        return RenameRun(cover.fs, run.input, run.log + WorkLog(code, 1, Some(cover.failure)), Some(cover.failure));
      }
      var processed := ProcessFolders(cover.fs, run.input, meta, scaner.Scan(cover.fs, folder, 0), target);
      if processed.Halted? {
        return RenameRun(processed.fs, run.input, run.log + WorkLog(code, 2, Some(processed.failure)), Some(processed.failure));
      }
      return RenameRun(processed.fs, processed.lines, run.log + WorkLog(code, 2, None), None);
    }

    /** The loop of rename over the folders of one work, with the disc
        counter starting at 1. */
    method ProcessFolders(fs: Fs, lines: seq<string>, meta: WorkMetadata, sources: seq<Path>, target: Path)
      returns (out: Progress)
      ensures out == ProcessSources(fs, lines, meta, sources, target, 1)
    {
      var current, input, disc := fs, lines, 1;
      var j := 0;
      assert sources[j..] == sources;
      while j < |sources|
        invariant 0 <= j <= |sources|
        invariant ProcessSources(current, input, meta, sources[j..], target, disc)
               == ProcessSources(fs, lines, meta, sources, target, 1)
      {
        assert sources[j..][1..] == sources[j + 1..];
        var processed := ProcessFolder(current, input, meta, sources[j], target, disc);
        if processed.Halted? {
          return processed;
        }
        current, input, disc := processed.fs, processed.lines, processed.disc;
        j := j + 1;
      }
      return Progressed(current, input, disc);
    }

    /** The body of the loop in rename, for one scanned folder. */
    method RenameWork(run: RenameRun, folder: Path, dest: Path, services: Services) returns (next: RenameRun)
      ensures next == ProcessWork(run, folder, dest, services)
    {
      var code := services.parseCode(Basename(folder));
      if code.None? || code.value == "" {
        return run;
      }
      var rjcode := code.value;
      var log := run.log + [LogEntry(Info, rjcode, FolderFound(folder))];
      match services.scrape(rjcode) {
        case Timeout =>
          next := run.(log := log + [LogEntry(Warning, rjcode, RequestTimedOut)]);
        case ConnectionError(m) =>
          next := run.(log := log + [LogEntry(Warning, rjcode, ConnectionFailed(m))]);
        case HTTPError(status, reason) =>
          next := run.(log := log + [LogEntry(Warning, rjcode, HttpStatus(status, reason))]);
        case OtherRequestError(m) =>
          next := run.(log := log + [LogEntry(Error, rjcode, RequestFailed(m))]);
        case Scraped(meta) =>
          next := Produce(run.(log := log), rjcode, meta, folder, dest, services);
      }
    }

    /** Renamer.rename(root_path, dest_path). */
    method Rename(fs: Fs, input: seq<string>, root: Path, dest: Path, services: Services) returns (run: RenameRun)
      ensures run == RenameSpec(fs, input, root, dest, services)
    {
      var folders := scaner.Scan(fs, root, 0);
      run := RenameRun(fs, input, [], None);
      var i := 0;
      assert folders[i..] == folders;
      while i < |folders|
        invariant 0 <= i <= |folders|
        invariant run.failure.None?
        invariant RenameFolders(run, folders[i..], dest, services) == RenameSpec(fs, input, root, dest, services)
      {
        assert folders[i..][1..] == folders[i + 1..];
        run := RenameWork(run, folders[i], dest, services);
        i := i + 1;
        if run.failure.Some? {
          return;
        }
      }
    }
  }

  /** Renamer(scaner, scraper, template, ...): the template must mention the
      code, and the settings are kept as given. */
  function NewRenamer(scaner: Scaner.Scaner, template: string, delimiter: string, excludeBrackets: bool,
                      toFullwidth: bool, tagsOption: TagsOption): (r: Result<Renamer, ConfigError>)
    ensures r.Success? <==> exists i :: OccursAt(template, CodeField, i)
    ensures r.Success? ==> r.value == Renamer(scaner, template, delimiter, excludeBrackets, toFullwidth, tagsOption)
    ensures r.Failure? ==> r.error == TemplateWithoutCode
  {
    ContainsIff(template, CodeField);
    if Contains(template, CodeField) then
      Success(Renamer(scaner, template, delimiter, excludeBrackets, toFullwidth, tagsOption))
    else Failure(TemplateWithoutCode)
  }

  /** The default template mentions the code, so a Renamer built with it
      is accepted. */
  lemma DefaultTemplateAccepted(scaner: Scaner.Scaner, delimiter: string, excludeBrackets: bool,
                                toFullwidth: bool, tagsOption: TagsOption)
    ensures NewRenamer(scaner, DefaultTemplate, delimiter, excludeBrackets, toFullwidth, tagsOption).Success?
  {
    var front, back := "[maker_name][", "] work_name cv_list_str";
    assert DefaultTemplate == front + CodeField + back;
    assert (front + CodeField + back)[|front|..|front| + |CodeField|] == CodeField;
    assert OccursAt(DefaultTemplate, CodeField, |front|);
  }

  // ---------------------------------------------------------------------
  // Steps of __process_folder that do not depend on the settings

  /** The files of a group, as the sorted list of names: regular files of
      the folder whose name ends in '.' and the extension. Listing entries
      hold no '/', so the full path ends so exactly when the name does, and
      full paths sharing the folder sort as their names do. */
  function AudioFiles(fs: Fs, source: Path, listed: set<string>, ext: string): (r: seq<string>)
    ensures StrictlySorted(r)
    ensures forall n :: n in r <==> n in listed && IsFile(fs, Child(source, n)) && EndsWith(n, "." + ext)
  {
    var group := set n | n in listed && IsFile(fs, Child(source, n)) && EndsWith(n, "." + ext);
    SortedNamesFacts(group);
    SortedNames(group)
  }

  /** How the disc-number prompt ends: with the number and the lines read,
      or unanswered when the console runs out. */
  datatype DiscAnswer = DiscUnanswered | DiscChosen(disc: int, used: nat)

  /** The disc-number prompt: its default is the counter as text; a reply
      that int() accepts is the chosen number, any other keeps the counter. */
  function ChooseDisc(lines: seq<string>, disc: int): (r: DiscAnswer)
    ensures r.DiscChosen? ==> 1 <= r.used <= |lines|
    ensures r.DiscUnanswered? <==> lines == []
  {
    var reply := InputReply(lines, Some(IntToString(disc)));
    if reply.NoReply? then DiscUnanswered
    else
      var parsed := ParseInt(reply.text);
      DiscChosen(if parsed.Some? then parsed.value else disc, reply.used)
  }

  /** The disc-number reply: a line int() accepts sets the number, and any
      other line, a blank one included, keeps the counter. One line is
      read. */
  lemma ChooseDiscReply(lines: seq<string>, disc: int)
    requires lines != []
    ensures ChooseDisc(lines, disc).DiscChosen? && ChooseDisc(lines, disc).used == 1
    ensures ParseInt(lines[0]).Some? ==> ChooseDisc(lines, disc).disc == ParseInt(lines[0]).value
    ensures ParseInt(lines[0]).None? ==> ChooseDisc(lines, disc).disc == disc
  {
    StripFacts(lines[0]);
    if Blank(lines[0]) {
      ParseIntToString(disc);
    } else {
      StripIdempotent(lines[0]);
    }
  }

  /** What the user decided for one group. */
  datatype GroupChoice = Skip | Take(disc: int, subtitle: Option<string>)

  /** How the prompts for one group end: with the decision and the lines
      read, or unanswered when the console runs out. */
  datatype GroupAnswer = GroupUnanswered | Decided(choice: GroupChoice, used: nat)

  /** The prompts for one group: whether to add the files, then the disc
      number and the subtitle. */
  function GroupPrompts(lines: seq<string>, disc: int, sniffed: Option<string>): (r: GroupAnswer)
    ensures r.Decided? ==> 1 <= r.used <= |lines|
  {
    var add := YesNoReply(lines);
    if add.Unanswered? then GroupUnanswered
    else if !add.yes then Decided(Skip, add.used)
    else
      var take := TakePrompts(lines[add.used..], disc, sniffed);
      if take.GroupUnanswered? then GroupUnanswered else Decided(take.choice, add.used + take.used)
  }

  /** The disc-number prompt, then the subtitle prompts on the lines after
      it. */
  function TakePrompts(lines: seq<string>, disc: int, sniffed: Option<string>): (r: GroupAnswer)
    ensures r.Decided? ==> 1 <= r.used <= |lines| && r.choice.Take?
  {
    var chosen := ChooseDisc(lines, disc);
    if chosen.DiscUnanswered? then GroupUnanswered
    else
      var subtitle := ChooseSubtitle(lines[chosen.used..], sniffed);
      if subtitle.SubtitleUnanswered? then GroupUnanswered
      else Decided(Take(chosen.disc, subtitle.subtitle), chosen.used + subtitle.used)
  }

  /** How the subtitle prompts end: with the subtitle (none when the user
      leaves it blank) and the lines read, or unanswered when the console
      runs out. */
  datatype SubtitleAnswer = SubtitleUnanswered | SubtitleChosen(subtitle: Option<string>, used: nat)

  /** The subtitle prompts: the title sniffed from the folder name is kept
      on a yes; on a no the user types one, a blank line meaning none. */
  function ChooseSubtitle(lines: seq<string>, sniffed: Option<string>): (r: SubtitleAnswer)
    ensures r.SubtitleChosen? ==> 1 <= r.used <= |lines|
  {
    var keep := YesNoReply(lines);
    if keep.Unanswered? then SubtitleUnanswered
    else if keep.yes then SubtitleChosen(sniffed, keep.used)
    else
      var typed := InputReply(lines[keep.used..], Some(""));
      if typed.NoReply? then SubtitleUnanswered
      else SubtitleChosen(if typed.text == "" then None else Some(typed.text), keep.used + typed.used)
  }

  /** The subtitle reply: a yes keeps the title sniffed from the folder
      name; after a no, the next line is the subtitle, stripped, and a blank
      line means none. */
  lemma SubtitleReply(lines: seq<string>, sniffed: Option<string>)
    requires YesNoReply(lines).Answered?
    requires !YesNoReply(lines).yes ==> YesNoReply(lines).used < |lines|
    ensures var k := YesNoReply(lines).used; var r := ChooseSubtitle(lines, sniffed);
      && r.SubtitleChosen?
      && (YesNoReply(lines).yes ==> r.subtitle == sniffed && r.used == k)
      && (!YesNoReply(lines).yes ==> r.used == k + 1)
      && (!YesNoReply(lines).yes && Blank(lines[k]) ==> r.subtitle.None?)
      && (!YesNoReply(lines).yes && !Blank(lines[k]) ==> r.subtitle == Some(Strip(lines[k])) && Strip(lines[k]) != "")
  {
    var k := YesNoReply(lines).used;
    if !YesNoReply(lines).yes {
      assert lines[k..][0] == lines[k];
      StripFacts(lines[k]);
    }
  }

  /** A folder created unless something exists at p already: only p may
      be added, and nothing is altered. */
  function EnsureDir(fs: Fs, p: Path): (r: Outcome<()>)
    ensures r.Done? ==> p in r.fs
    ensures forall q :: q in fs ==> q in r.fs && r.fs[q] == fs[q]
    ensures forall q :: q in r.fs && q !in fs ==> q == p && r.fs[q] == Directory
  {
    if p in fs then Done(fs, ())
    else match MakeDir(fs, p)
      case Failure(e) => Aborted(fs, FsFailure(e))
      case Success(fs1) => Done(fs1, ())
  }

  /** Where __process_folder means to copy a file: the target folder joined
      with the file's name. */
  function CopyDestination(target: Path, name: string): Path {
    Child(target, name)
  }

  /** Where renamer.py:234 actually copies a file: os.path.join(target,
      target_file), target_file being os.path.join(target, name) already. */
  function CopyDestinationAsWritten(target: Path, name: string): Path {
    Join(target, Child(target, name))
  }

  /** For an absolute target the two joins agree, so the copy lands where
      the file is then tagged. */
  lemma CopyDestinationAbsolute(target: Path, name: string)
    requires target.absolute
    ensures CopyDestinationAsWritten(target, name) == CopyDestination(target, name)
  {
  }

  /** For a relative target such as out/, the copy goes to out/out/name
      while the tags and the cover are written to out/name. */
  lemma CopyDestinationRelative(target: Path, name: string)
    requires !target.absolute && target.parts != []
    ensures CopyDestinationAsWritten(target, name) != CopyDestination(target, name)
    ensures CopyDestinationAsWritten(target, name).parts == target.parts + target.parts + [name]
  {
    assert |CopyDestinationAsWritten(target, name).parts| != |CopyDestination(target, name).parts|;
  }

  /** One file of a group as renamer.py:232-236 is written: copied to the
      doubled path, then tagged and given the cover at target/name. */
  function CopyTrackAsWritten(fs: Fs, source: Path, target: Path, name: string, tags: AudioTags): (r: Outcome<()>)
    ensures target.absolute ==> r == CopyTrack(fs, source, target, name, tags)
  {
    assert target.absolute ==> CopyDestinationAsWritten(target, name) == CopyDestination(target, name) by {
      if target.absolute { CopyDestinationAbsolute(target, name); }
    }
    var dst := CopyDestination(target, name);
    match CopyFile(fs, Child(source, name), CopyDestinationAsWritten(target, name))
    case Failure(e) => Aborted(fs, FsFailure(e))
    case Success(fs1) =>
      match SetTags(fs1, dst, tags)
      case Failure(e) => Aborted(fs1, FsFailure(e))
      case Success(fs2) =>
        match EmbedCover(fs2, Child(target, CoverName), dst)
        case Failure(e) => Aborted(fs2, FsFailure(e))
        case Success(fs3) => Done(fs3, ())
  }

  /** With a relative destination folder, say out, a new file cannot be
      processed as written: either the copy to out/out/name fails, or it
      succeeds and tagging out/name, which was never created, raises. */
  lemma RelativeTargetFails(fs: Fs, source: Path, target: Path, name: string, tags: AudioTags)
    requires !target.absolute && target.parts != []
    requires CopyDestination(target, name) !in fs
    ensures CopyTrackAsWritten(fs, source, target, name, tags).Aborted?
  {
    CopyDestinationRelative(target, name);
    var doubled := CopyDestinationAsWritten(target, name);
    var copied := CopyFile(fs, Child(source, name), doubled);
    if copied.Success? {
      assert CopyDestination(target, name) !in copied.value;
    }
  }

  /** The container format the tag library finds for a copied file. */
  function KindOf(name: string): (k: AudioKind)
    ensures k == Mp3 <==> EndsWith(name, ".mp3")
    ensures k == Flac <==> EndsWith(name, ".flac")
  {
    if EndsWith(name, ".mp3") then
      assert name[|name| - 1] == '3';
      Mp3
    else if EndsWith(name, ".flac") then Flac
    else OtherFormat
  }

  /** __write_tag_cover: with no cover file nothing happens; otherwise its
      bytes are embedded as the front cover of dst. */
  function EmbedCover(fs: Fs, cover: Path, dst: Path): (r: Result<Fs, FsError>)
    ensures cover !in fs ==> r == Success(fs)
    ensures r.Success? ==> r.value.Keys == fs.Keys
    ensures r.Success? ==> forall p :: p in fs && p != dst ==> r.value[p] == fs[p]
    ensures r.Success? && IsFile(fs, dst) ==>
      r.value[dst].RegularFile? && r.value[dst].data == fs[dst].data && r.value[dst].tags == fs[dst].tags
    ensures r.Success? && IsFile(fs, dst) && IsFile(fs, cover) && KindOf(Basename(dst)) != OtherFormat ==>
      r.value[dst].pictures == fs[dst].pictures + [fs[cover].data]
    ensures r.Success? && KindOf(Basename(dst)) == OtherFormat ==> r.value == fs
  {
    if cover !in fs then Success(fs)
    else match ReadFile(fs, cover)
      case Failure(e) => Failure(e)
      case Success(data) =>
        var r := AddPicture(fs, dst, KindOf(Basename(dst)), data);
        r
  }

  /** One file of a group: copied to the target folder, tagged, and given
      the cover. Only that copy is added or altered, and on success it holds
      the source's bytes and the given tags saved over the source's own. */
  function CopyTrack(fs: Fs, source: Path, target: Path, name: string, tags: AudioTags): (r: Outcome<()>)
    ensures ChangedOnlyAmong(fs, r.fs, target, [name])
    ensures r.Done? ==>
      && IsFile(fs, Child(source, name))
      && IsFile(r.fs, CopyDestination(target, name))
      && r.fs[CopyDestination(target, name)].tags == Some(SavedTags(fs[Child(source, name)].tags, tags))
      && r.fs[CopyDestination(target, name)].data == fs[Child(source, name)].data
  {
    var dst := CopyDestination(target, name);
    ParentOfChild(target, name);
    match CopyFile(fs, Child(source, name), dst)
    case Failure(e) => Aborted(fs, FsFailure(e))
    case Success(fs1) =>
      match SetTags(fs1, dst, tags)
      case Failure(e) => Aborted(fs1, FsFailure(e))
      case Success(fs2) =>
        match EmbedCover(fs2, Child(target, CoverName), dst)
        case Failure(e) => Aborted(fs2, FsFailure(e))
        case Success(fs3) => Done(fs3, ())
  }

  /** The copy loop of one group: each file of `names` in turn is copied,
      tagged with its entry of `tags` and given the cover, stopping at the
      first failure. Only copies of `names` are added or altered. */
  function CopyTracks(fs: Fs, source: Path, target: Path, names: seq<string>, tags: seq<AudioTags>): (r: Outcome<()>)
    requires |tags| == |names|
    ensures ChangedOnlyAmong(fs, r.fs, target, names)
    decreases |names|
  {
    if names == [] then Done(fs, ())
    else
      match CopyTrack(fs, source, target, names[0], tags[0])
      case Aborted(fs1, f) =>
        AmongTransitive(fs, fs1, fs1, target, [names[0]], [], names);
        Aborted(fs1, f)
      case Done(fs1, _) =>
        var r := CopyTracks(fs1, source, target, names[1..], tags[1..]);
        AmongTransitive(fs, fs1, r.fs, target, [names[0]], names[1..], names);
        r
  }

  /** A step that alters only the copy of names[0] leaves the source of any
      other of the distinct names as it was. */
  lemma SourceKept(fs: Fs, fs2: Fs, source: Path, target: Path, names: seq<string>, i: nat)
    requires forall j, k :: 0 <= j < k < |names| ==> names[j] != names[k]
    requires 0 < i < |names| && |names| > 0
    requires ChangedOnlyAmong(fs, fs2, target, [names[0]])
    requires IsFile(fs2, Child(source, names[i]))
    ensures IsFile(fs, Child(source, names[i])) && fs2[Child(source, names[i])] == fs[Child(source, names[i])]
  {
    assert !Changed(fs, fs2, Child(source, names[i])) by {
      assert names[0] != names[i];
    }
  }

  /** When the copies of distinct names all succeed, the i-th file is in the
      target folder and carries the i-th tags saved over its source's. */
  lemma {:induction false} TrackNumbered(fs: Fs, source: Path, target: Path, names: seq<string>, tags: seq<AudioTags>, i: nat)
    requires forall j, k :: 0 <= j < k < |names| ==> names[j] != names[k]
    requires |tags| == |names| && CopyTracks(fs, source, target, names, tags).Done?
    requires i < |names|
    ensures var r := CopyTracks(fs, source, target, names, tags).fs;
      && IsFile(fs, Child(source, names[i]))
      && IsFile(r, Child(target, names[i]))
      && r[Child(target, names[i])].tags == Some(SavedTags(fs[Child(source, names[i])].tags, tags[i]))
    decreases i
  {
    if i > 0 {
      var fs1 := CopyTracksFirst(fs, source, target, names, tags);
      assert names[1..][i - 1] == names[i] && tags[1..][i - 1] == tags[i];
      DistinctTail(names);
      TrackNumbered(fs1, source, target, names[1..], tags[1..], i - 1);
      SourceKept(fs, fs1, source, target, names, i);
    } else {
      FirstTrackTagged(fs, source, target, names, tags);
    }
  }

  lemma DistinctTail(names: seq<string>)
    requires names != [] && forall j, k :: 0 <= j < k < |names| ==> names[j] != names[k]
    ensures forall j, k :: 0 <= j < k < |names[1..]| ==> names[1..][j] != names[1..][k]
  {
    forall j, k | 0 <= j < k < |names[1..]| ensures names[1..][j] != names[1..][k] {
      assert names[1..][j] == names[j + 1] && names[1..][k] == names[k + 1];
    }
  }

  /** A loop that completes has completed its first copy, and the rest of
      the loop starts from there. */
  lemma CopyTracksFirst(fs: Fs, source: Path, target: Path, names: seq<string>, tags: seq<AudioTags>) returns (fs1: Fs)
    requires |tags| == |names| && names != [] && CopyTracks(fs, source, target, names, tags).Done?
    ensures CopyTrack(fs, source, target, names[0], tags[0]) == Done(fs1, ())
    ensures ChangedOnlyAmong(fs, fs1, target, [names[0]])
    ensures CopyTracks(fs1, source, target, names[1..], tags[1..]) == CopyTracks(fs, source, target, names, tags)
  {
    fs1 := CopyTrack(fs, source, target, names[0], tags[0]).fs;
  }

  /** The first copy keeps its tags through the rest of the loop, since no
      later name is the same. */
  lemma FirstTrackTagged(fs: Fs, source: Path, target: Path, names: seq<string>, tags: seq<AudioTags>)
    requires forall j, k :: 0 <= j < k < |names| ==> names[j] != names[k]
    requires |tags| == |names| && names != [] && CopyTracks(fs, source, target, names, tags).Done?
    ensures var r := CopyTracks(fs, source, target, names, tags).fs;
      && IsFile(fs, Child(source, names[0]))
      && IsFile(r, Child(target, names[0]))
      && r[Child(target, names[0])].tags == Some(SavedTags(fs[Child(source, names[0])].tags, tags[0]))
  {
    var fs1 := CopyTracksFirst(fs, source, target, names, tags);
    var rest := names[1..];
    var r := CopyTracks(fs1, source, target, rest, tags[1..]);
    var dst := Child(target, names[0]);
    ParentOfChild(target, names[0]);
    assert names[0] !in rest by {
      forall j | 0 <= j < |rest| ensures rest[j] != names[0] {
        assert rest[j] == names[j + 1];
      }
    }
    assert !Changed(fs1, r.fs, dst);
  }

  /** __download_cover: target/cover.jpg is opened for writing, then the
      body is streamed into it. Any error, including one opening the file,
      becomes the cover-download failure; a failed request leaves what was
      written so far. Nothing else is added or altered. */
  function DownloadCover(fs: Fs, url: string, target: Path, outcome: DownloadOutcome): (r: Outcome<Path>)
    ensures r.Done? <==> outcome.Downloaded? && CreateError(fs, Child(target, CoverName)).None?
    ensures r.Done? ==> r.value == Child(target, CoverName) && r.fs == fs[r.value := RegularFile(outcome.data, None, [])]
    ensures r.Aborted? ==> r.failure == CoverDownloadFailure(url, Child(target, CoverName))
    ensures Grows(fs, r.fs) && forall p :: Changed(fs, r.fs, p) ==> p == Child(target, CoverName)
  {
    var path := Child(target, CoverName);
    match CreateError(fs, path)
    case Some(_) => Aborted(fs, CoverDownloadFailure(url, path))
    case None =>
      match outcome
      case Downloaded(data) => Done(fs[path := RegularFile(data, None, [])], path)
      case DownloadFailed(partial) => Aborted(fs[path := RegularFile(partial, None, [])], CoverDownloadFailure(url, path))
  }

  lemma CoverIsBelow(fs: Fs, fs2: Fs, target: Path, dest: Path)
    requires Grows(fs, fs2) && forall p :: Changed(fs, fs2, p) ==> p == Child(target, CoverName)
    requires IsPrefix(dest, target)
    ensures ChangedOnlyBelow(fs, fs2, dest)
  {
    IsPrefixJoinName(target, CoverName);
    IsPrefixTransitive(dest, target, Child(target, CoverName));
  }

  /** Where the stages of one work stopped: the file system, the unread
      console, the last stage reached and the failure that stopped them. */
  datatype StagesEnd = StagesEnd(fs: Fs, input: seq<string>, reached: nat, failure: Option<Failure>)

  /** The records rename logs for one work whose stages reached `reached`:
      the announcements of the stages begun, then the failure at error
      level, or the success. */
  function WorkLog(code: string, reached: nat, failure: Option<Failure>): (r: seq<LogEntry>)
    ensures |r| >= 3
    ensures failure.Some? ==> r[|r| - 1] == LogEntry(Error, code, Failed(failure.value))
    ensures failure.None? ==> r[|r| - 1] == LogEntry(Info, code, Renamed)
    ensures failure.None? && reached >= 2 ==> r == [
      LogEntry(Info, code, Processing), LogEntry(Info, code, CreatingFolders),
      LogEntry(Info, code, DownloadingCover), LogEntry(Info, code, StartingInteractive),
      LogEntry(Info, code, Renamed)]
  {
    [LogEntry(Info, code, Processing), LogEntry(Info, code, CreatingFolders)]
    + (if reached >= 1 then [LogEntry(Info, code, DownloadingCover)] else [])
    + (if reached >= 2 then [LogEntry(Info, code, StartingInteractive)] else [])
    + (if failure.Some? then [LogEntry(Error, code, Failed(failure.value))] else [LogEntry(Info, code, Renamed)])
  }

  lemma LogExtended(log: seq<LogEntry>, added: seq<LogEntry>)
    requires added != []
    ensures log < log + added
  {
    assert (log + added)[..|log|] == log;
  }

  lemma AmongIsInside(fs: Fs, fs2: Fs, folder: Path, names: seq<string>)
    requires ChangedOnlyAmong(fs, fs2, folder, names)
    ensures ChangedOnlyInside(fs, fs2, folder)
  {
  }
}
