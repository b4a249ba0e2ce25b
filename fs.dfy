/**
 * The entry shape produced by the directory walk of `src/fs.rs`. The walk
 * itself reads the file system and is not part of this model.
 */
module Fs {

  datatype EntryType = File | Folder

  /**
   * One scanned file or folder: `path` is the path below the opened folder
   * (the walk strips the opened folder's own path), `depth` is 1 for the
   * opened folder's direct children.
   */
  datatype FileSystemEntry = FileSystemEntry(ogPath: string, path: string, depth: nat, entryType: EntryType)
}
