/**
 * main.py: `AudioManager`, the background-music player. The model keeps
 * the state its methods change (the sorted list of MP3 files and the index
 * of the current track) and leaves the mixer calls out.
 */
module Audio {
  import opened Text
  import opened Sorting
  import opened Ring

  /** What `os.path.exists` and `os.listdir` find at the sounds path. */
  datatype Listing =
    | Missing                       // the path does not exist: the list stays empty
    | Unreadable                    // `os.listdir` raises
    | Entries(names: seq<string>)   // the directory's entries

  /** `[f for f in names if f.endswith('.mp3')]`. */
  function Mp3Files(names: seq<string>): (r: seq<string>)
    ensures |r| <= |names|
    ensures forall f :: f in r <==> f in names && EndsWith(f, ".mp3")
  {
    if names == [] then []
    else
      assert names == [names[0]] + names[1..];
      (if EndsWith(names[0], ".mp3") then [names[0]] else []) + Mp3Files(names[1..])
  }

  /** Each MP3 entry is kept as often as it is listed, and every other entry is dropped. */
  lemma {:induction false} Mp3FilesCounts(names: seq<string>)
    ensures forall f :: multiset(Mp3Files(names))[f] == if EndsWith(f, ".mp3") then multiset(names)[f] else 0
  {
    if names != [] {
      Mp3FilesCounts(names[1..]);
      assert names == [names[0]] + names[1..];
      assert multiset(names) == multiset{names[0]} + multiset(names[1..]);
    }
  }

  /** The music list `_load_music_list` leaves for a directory holding `names`. */
  function MusicList(names: seq<string>): (r: seq<string>)
    ensures Ascending(r) && multiset(r) == multiset(Mp3Files(names))
  {
    Sort(Mp3Files(names))
  }

  /** The music list holds exactly the MP3 entries, in ascending order, each as often as listed. */
  lemma MusicListMeaning(names: seq<string>)
    ensures Ascending(MusicList(names))
    ensures multiset(MusicList(names)) == multiset(Mp3Files(names))
    ensures forall f :: f in MusicList(names) <==> f in names && EndsWith(f, ".mp3")
  {
    var r := MusicList(names);
    forall f ensures f in r <==> f in Mp3Files(names) {
      assert f in r <==> f in multiset(r);
      assert f in Mp3Files(names) <==> f in multiset(Mp3Files(names));
    }
  }

  class AudioManager {
    var soundsPath: string
    var musicFiles: seq<string>
    var currentTrack: int
    var enabled: bool

    /**
     * `__init__`: an empty list and track 0, then the music list is loaded;
     * if the mixer does not start or the listing raises, audio is disabled.
     */
    constructor (soundsPath: string, mixerStarts: bool, listing: Listing)
      ensures this.soundsPath == soundsPath && currentTrack == 0
      ensures enabled <==> mixerStarts && !listing.Unreadable?
      ensures musicFiles == if mixerStarts && listing.Entries? then MusicList(listing.names) else []
    {
      this.soundsPath := soundsPath;
      musicFiles := [];
      currentTrack := 0;
      enabled := true;
      new;
      if mixerStarts {
        var raised := LoadMusicList(listing);
        if raised {
          enabled := false;
        }
      } else {
        enabled := false;
      }
    }

    /** `_load_music_list`: the sorted MP3 entries when the path exists; `raised` when listing it fails. */
    method LoadMusicList(listing: Listing) returns (raised: bool)
      modifies this`musicFiles
      ensures raised <==> listing.Unreadable?
      ensures musicFiles == if listing.Entries? then MusicList(listing.names) else old(musicFiles)
    {
      raised := false;
      match listing {
        case Missing =>
        case Unreadable =>
          raised := true;
        case Entries(names) =>
          musicFiles := MusicList(names);
      }
    }

    /**
     * `play(track_index)`: nothing when disabled or without music; otherwise
     * the requested track when it is in range and an arbitrary one
     * (`random.randint`) when it is not.
     */
    method Play(trackIndex: int)
      modifies this`currentTrack
      ensures !enabled || musicFiles == [] ==> currentTrack == old(currentTrack)
      ensures enabled && musicFiles != [] ==> 0 <= currentTrack < |musicFiles|
      ensures enabled && 0 <= trackIndex < |musicFiles| ==> currentTrack == trackIndex
    {
      if !enabled || musicFiles == [] {
        return;
      }
      if trackIndex >= 0 && trackIndex < |musicFiles| {
        currentTrack := trackIndex;
      } else {
        var pick :| 0 <= pick <= |musicFiles| - 1;
        currentTrack := pick;
      }
    }

    /** `next_track`: one track on, wrapping around; nothing without music. */
    method NextTrack()
      modifies this`currentTrack
      ensures currentTrack == if musicFiles == [] then old(currentTrack) else Next(old(currentTrack), |musicFiles|)
    {
      if musicFiles != [] {
        currentTrack := Next(currentTrack, |musicFiles|);
        Play(currentTrack);
      }
    }

    /** `prev_track`: one track back, wrapping around; nothing without music. */
    method PrevTrack()
      modifies this`currentTrack
      ensures currentTrack == if musicFiles == [] then old(currentTrack) else Prev(old(currentTrack), |musicFiles|)
    {
      if musicFiles != [] {
        currentTrack := Prev(currentTrack, |musicFiles|);
        Play(currentTrack);
      }
    }
  }
}
