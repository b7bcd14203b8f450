/**
 * The wallpaper manager of the home screen: a collection of wallpaper paths
 * built from the skill's and the user's wallpaper directories, the selected
 * one, and the default one.
 */
module Wallpapers {
  import opened Wrappers
  import opened Sequences
  import Rotation

  /** `Path(base).joinpath(name)` for a relative `name`. */
  function JoinPath(base: string, name: string): string {
    base + "/" + name
  }

  type Hour = h: nat | h < 24
  type Minute = m: nat | m < 60
  type Second = s: nat | s < 60

  /** A time of day, as `datetime.now()` gives it. */
  datatype TimeOfDay = TimeOfDay(hour: Hour, minute: Minute, second: Second)

  function Digit(d: nat): char
    requires d < 10
  {
    ('0' as int + d) as char
  }

  predicate IsDigit(c: char) {
    '0' <= c <= '9'
  }

  function DigitValue(c: char): nat
    requires IsDigit(c)
  {
    c as int - '0' as int
  }

  /** Zero-padded two-digit decimal, as `%H`, `%M` and `%S` format. */
  function TwoDigits(n: nat): string
    requires n < 100
  {
    [Digit(n / 10), Digit(n % 10)]
  }

  /** The file name `add` writes: "wallpaper-" + HHMMSS + ".jpg". */
  function WallpaperFileName(t: TimeOfDay): (name: string)
    ensures |name| == 20
    ensures name[..10] == "wallpaper-" && name[16..] == ".jpg"
    ensures forall k :: 10 <= k < 16 ==> IsDigit(name[k])
  {
    "wallpaper-" + TwoDigits(t.hour) + TwoDigits(t.minute) + TwoDigits(t.second) + ".jpg"
  }

  function TwoDigitValue(s: string): nat
    requires |s| == 2 && IsDigit(s[0]) && IsDigit(s[1])
  {
    10 * DigitValue(s[0]) + DigitValue(s[1])
  }

  /** Reads back the time of day from a generated file name. */
  function ParseWallpaperFileName(name: string): Option<TimeOfDay> {
    if |name| == 20 && name[..10] == "wallpaper-" && name[16..] == ".jpg" &&
       forall k :: 10 <= k < 16 ==> IsDigit(name[k])
    then
      var h := TwoDigitValue(name[10..12]);
      var m := TwoDigitValue(name[12..14]);
      var s := TwoDigitValue(name[14..16]);
      if h < 24 && m < 60 && s < 60 then Some(TimeOfDay(h, m, s)) else None
    else None
  }

  /** The generated file name records the six-digit time it was made at. */
  lemma WallpaperFileNameRoundTrip(t: TimeOfDay)
    ensures ParseWallpaperFileName(WallpaperFileName(t)) == Some(t)
  {
  }

  /** Wallpapers added at different times of day get different file names. */
  lemma WallpaperFileNameInjective(t1: TimeOfDay, t2: TimeOfDay)
    requires t1 != t2
    ensures WallpaperFileName(t1) != WallpaperFileName(t2)
  {
    WallpaperFileNameRoundTrip(t1);
    WallpaperFileNameRoundTrip(t2);
  }

  class Wallpaper {
    /** The wallpaper directory shipped with the skill. */
    const skillDirectory: string
    /** The directory that holds wallpapers the user added. */
    const userDirectory: string
    /** The default wallpaper, as a path. */
    var default: string
    /** The wallpaper on display. */
    var selected: string
    /** Every wallpaper path found: skill directory first, then user directory. */
    var collection: seq<string>

    /**
     * `_get_file_path`: the file in the skill directory when `isFile` says it
     * exists there, otherwise the file in the user directory.
     */
    function GetFilePath(fileName: string, isFile: string -> bool): (p: string)
      ensures p == JoinPath(skillDirectory, fileName) || p == JoinPath(userDirectory, fileName)
      ensures isFile(JoinPath(skillDirectory, fileName)) ==> p == JoinPath(skillDirectory, fileName)
      ensures !isFile(JoinPath(skillDirectory, fileName)) ==> p == JoinPath(userDirectory, fileName)
    {
      var skillPath := JoinPath(skillDirectory, fileName);
      var userPath := JoinPath(userDirectory, fileName);
      if isFile(skillPath) then skillPath else userPath
    }

    /**
     * Builds the manager over the two directories; `isFile` is the file
     * system's existence test and the listings are the directories' contents.
     */
    constructor (skillRootDir: string, skillDataDir: string, default: string, isFile: string -> bool,
                 skillListing: seq<string>, userListing: seq<string>)
      ensures skillDirectory == JoinPath(skillRootDir, "ui/wallpapers")
      ensures userDirectory == JoinPath(skillDataDir, "wallpapers")
      ensures this.default == GetFilePath(default, isFile)
      ensures selected == this.default
      ensures collection == skillListing + userListing
    {
      skillDirectory := JoinPath(skillRootDir, "ui/wallpapers");
      userDirectory := JoinPath(skillDataDir, "wallpapers");
      new;
      this.default := GetFilePath(default, isFile);
      selected := this.default;
      collection := [];
      Collect(skillListing, userListing);
    }

    /** Appends the skill directory's entries, then the user directory's. */
    method Collect(skillListing: seq<string>, userListing: seq<string>)
      modifies this`collection
      ensures collection == old(collection) + skillListing + userListing
    {
      for i := 0 to |skillListing|
        invariant collection == old(collection) + skillListing[..i]
      {
        collection := collection + [skillListing[i]];
        assert skillListing[..i + 1] == skillListing[..i] + [skillListing[i]];
      }
      assert skillListing[..|skillListing|] == skillListing;
      for i := 0 to |userListing|
        invariant collection == old(collection) + skillListing + userListing[..i]
      {
        collection := collection + [userListing[i]];
        assert userListing[..i + 1] == userListing[..i] + [userListing[i]];
      }
      assert userListing[..|userListing|] == userListing;
    }

    /**
     * Selects the next wallpaper: the first after the last, the one after the
     * selected one otherwise, and the default when the selection is not in the collection.
     */
    method Change()
      modifies this`selected
      ensures selected == Rotation.Next(collection, old(selected), default)
    {
      if selected in collection {
        if selected == collection[|collection| - 1] {
          selected := collection[0];
        } else {
          var indexOfSelected := Rotation.IndexOf(collection, selected).value;
          selected := collection[indexOfSelected + 1];
        }
      } else {
        selected := default;
      }
    }

    /**
     * Adds a wallpaper written to the user directory at time `now` and selects
     * it. The image bytes and the write itself are not modelled.
     */
    method Add(now: TimeOfDay)
      modifies this`collection, this`selected
      ensures collection == old(collection) + [JoinPath(userDirectory, WallpaperFileName(now))]
      ensures selected == JoinPath(userDirectory, WallpaperFileName(now))
    {
      var fileName := WallpaperFileName(now);
      var filePath := JoinPath(userDirectory, fileName);
      collection := collection + [filePath];
      selected := filePath;
    }
  }

  /**
   * A client of the class: with a selection in a collection of distinct
   * paths, changing the wallpaper |collection| times comes back to it and
   * every intermediate selection stays in the collection; only the selection
   * may change, so the collection and the default are untouched.
   */
  method ChangeRoundTrip(w: Wallpaper)
    requires Distinct(w.collection) && w.selected in w.collection
    modifies w`selected
    ensures w.selected == old(w.selected)
    ensures w.collection == old(w.collection) && w.default == old(w.default)
  {
    ghost var start := w.selected;
    var n := |w.collection|;
    for k := 0 to n
      invariant w.collection == old(w.collection) && w.default == old(w.default)
      invariant w.selected == Rotation.Iterate(w.collection, start, w.default, k)
      invariant w.selected in w.collection
    {
      w.Change();
    }
    Rotation.RotationCycles(w.collection, start, w.default);
  }
}
