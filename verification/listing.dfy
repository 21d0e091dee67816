/**
 * The binary's two read-only endpoints over the scanned file list: the JSON
 * listing of `/files` and the lookup of `/file/{id}`.
 */
module Listing {
  import opened Wrappers
  import opened Types
  import opened Classifier

  /** One element of the `/files` listing. */
  datatype AudioFileEntry = AudioFileEntry(id: nat, path: Path, mime: string)

  /** What `/file/{id}` answers with: the file, its content type and the name in Content-Disposition. */
  datatype Served = Served(path: Path, contentType: string, fileName: string)

  /** Every file has an extension, so the handler's `unwrap` does not panic. */
  predicate AllHaveExtension(files: seq<Path>)
  {
    forall i :: 0 <= i < |files| ==> Extension(files[i]).Some?
  }

  /** `/files`: the files in walk order, numbered from 0, each with the MIME type of its extension. */
  function ListFiles(files: seq<Path>): (r: seq<AudioFileEntry>)
    requires AllHaveExtension(files)
    ensures |r| == |files|
    ensures forall i :: 0 <= i < |r| ==> r[i].path == files[i] && r[i].id == i
    ensures forall i :: 0 <= i < |r| ==> r[i].mime == ExtensionToMime(Extension(files[i]).value)
  {
    seq(|files|, i requires 0 <= i < |files| => AudioFileEntry(i, files[i], ExtensionToMime(Extension(files[i]).value)))
  }

  /**
   * `/file/{id}`: the file at position `id`. An id past the end, or a path
   * with no extension or no file name, panics the handler; that is `None`.
   */
  function FileById(files: seq<Path>, id: nat): (r: Option<Served>)
    ensures r.Some? <==> id < |files| && Extension(files[id]).Some?
    ensures r.Some? ==> r.value.path == files[id] && r.value.fileName == files[id][|files[id]| - 1]
    ensures r.Some? ==> r.value.contentType == ExtensionToMime(Extension(files[id]).value)
  {
    if id >= |files| then None
    else match Extension(files[id])
      case None => None
      case Some(ext) => Some(Served(files[id], ExtensionToMime(ext), files[id][|files[id]| - 1]))
  }

  /**
   * The listing and the lookup agree: every id the listing hands out is
   * served, as the same path with the MIME type the listing announced, and
   * no other id is.
   */
  lemma ListingResolves(files: seq<Path>, id: nat)
    requires AllHaveExtension(files)
    ensures FileById(files, id).Some? <==> exists e :: e in ListFiles(files) && e.id == id
    ensures forall e :: e in ListFiles(files) && e.id == id ==>
      FileById(files, id) == Some(Served(e.path, e.mime, e.path[|e.path| - 1]))
  {
    var listing := ListFiles(files);
    if id < |files| {
      assert listing[id] in listing;
    }
    forall e | e in listing && e.id == id
      ensures id < |files| && e == listing[id]
    {
      var i :| 0 <= i < |listing| && listing[i] == e;
    }
  }

  /**
   * On the walk's output the listing never panics, its ids are distinct, and
   * every MIME type is one of the five the whitelist can produce.
   */
  lemma ListingOfAudioFiles(files: seq<Path>)
    requires forall p :: p in files ==> IsAudioFile(p)
    ensures AllHaveExtension(files)
    ensures forall i, j :: 0 <= i < j < |ListFiles(files)| ==> ListFiles(files)[i].id != ListFiles(files)[j].id
    ensures forall e :: e in ListFiles(files) ==>
      e.mime in ["audio/mp4", "audio/mp3", "audio/flac", "audio/wav", "audio/opus"]
  {
    assert forall i :: 0 <= i < |files| ==> files[i] in files;
    var listing := ListFiles(files);
    forall e | e in listing
      ensures e.mime in ["audio/mp4", "audio/mp3", "audio/flac", "audio/wav", "audio/opus"]
    {
      var i :| 0 <= i < |listing| && listing[i] == e;
      AudioMimes(files[i]);
    }
  }
}
