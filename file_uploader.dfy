/** The photo picker's selection state machine (frontend/src/components/FileUploader.tsx). */
module FileUploader {
  import opened Wrappers
  import Text

  /** A browser `File`: its name and its size in bytes. */
  datatype File = File(name: string, size: nat)

  const DefaultMaxSizeMB: nat := 10

  /** The largest accepted size in bytes. */
  function LimitBytes(maxSizeMB: nat): nat {
    maxSizeMB * 1024 * 1024
  }

  /** The error shown for an oversized file. */
  function SizeError(maxSizeMB: nat): (e: string)
    ensures Text.StartsWith(e, "File must be smaller than ")
    ensures Text.EndsWith(e, "MB")
  {
    "File must be smaller than " + Text.NatToDecimal(maxSizeMB) + "MB"
  }

  /** A file is accepted exactly when it is not larger than the limit. */
  predicate Accepts(maxSizeMB: nat, f: File) {
    f.size <= LimitBytes(maxSizeMB)
  }

  /**
   * One mounted uploader. `selections` records, in order, every value
   * handed to the `onFileSelect` callback.
   */
  class Uploader {
    const maxSizeMB: nat
    var previewName: Option<string>
    var error: Option<string>
    var selections: seq<Option<File>>

    /**
     * The preview names exactly the file the parent last received, and is
     * empty before any selection and after a cleared one.
     */
    predicate ShowsLastSelection()
      reads this
    {
      if selections == [] then previewName == None
      else
        var last := selections[|selections| - 1];
        previewName == if last.Some? then Some(last.value.name) else None
    }

    constructor (maxSizeMB: nat)
      ensures this.maxSizeMB == maxSizeMB
      ensures previewName == None && error == None && selections == []
      ensures ShowsLastSelection()
    {
      this.maxSizeMB := maxSizeMB;
      previewName := None;
      error := None;
      selections := [];
    }

    /** `handleFileChange(files)`; `files` is the picked list, empty for none. */
    method HandleFileChange(files: seq<File>)
      modifies this
      ensures files == [] ==>
        previewName == None && error == old(error) && selections == old(selections) + [None]
      ensures files != [] && !Accepts(maxSizeMB, files[0]) ==>
        error == Some(SizeError(maxSizeMB)) && previewName == old(previewName)
        && selections == old(selections)
      ensures files != [] && Accepts(maxSizeMB, files[0]) ==>
        error == None && previewName == Some(files[0].name)
        && selections == old(selections) + [Some(files[0])]
      ensures old(ShowsLastSelection()) ==> ShowsLastSelection()
    {
      if files == [] {
        previewName := None;
        selections := selections + [None];
        return;
      }
      var file := files[0];
      if file.size > maxSizeMB * 1024 * 1024 {
        error := Some(SizeError(maxSizeMB));
        return;
      }
      error := None;
      previewName := Some(file.name);
      selections := selections + [Some(file)];
    }
  }

  /** With the default limit, a file of exactly 10 MiB is accepted and one byte more is not. */
  lemma DefaultLimitIsInclusive(name: string)
    ensures Accepts(DefaultMaxSizeMB, File(name, 10485760))
    ensures !Accepts(DefaultMaxSizeMB, File(name, 10485761))
  {
  }
}
