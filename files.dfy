/** The part of the file system the ingestion scripts write to: a directory's
    files, by name, with their text. */
module Files {
  class Directory {
    var files: map<string, string>

    constructor (files: map<string, string>)
      ensures this.files == files
    {
      this.files := files;
    }
  }
}
