/** The two stores a conversion session touches: the ledger of converted
    (file name, model id) pairs, which the database table holds, and the
    files on disk. */
module Storage {
  import opened Common

  /** The `converted_files` table, seen through the only queries the code
      makes: a lookup by (file name, model id) and an insert-or-replace. */
  class Ledger {
    var rows: set<(string, string)>

    constructor(initial: set<(string, string)>)
      ensures rows == initial
    {
      rows := initial;
    }

    /** Whether a row with this file name and model id exists. */
    predicate Has(name: string, modelId: string)
      reads this
    {
      (name, modelId) in rows
    }

    /** INSERT OR REPLACE keyed on (file name, model id): afterwards the row
        is present, and inserting a present row changes nothing. */
    method Note(name: string, modelId: string)
      modifies this
      ensures rows == old(rows) + {(name, modelId)}
      ensures Has(name, modelId)
      ensures old(Has(name, modelId)) ==> rows == old(rows)
    {
      rows := rows + {(name, modelId)};
    }
  }

  /** The file system: the text of each existing file. */
  class FileStore {
    var files: map<Path, string>

    constructor(initial: map<Path, string>)
      ensures files == initial
    {
      files := initial;
    }

    /** Reading a file; None where Python raises because it does not exist. */
    method Read(p: Path) returns (r: Option<string>)
      ensures r.Some? <==> p in files
      ensures r.Some? ==> r.value == files[p]
    {
      if p in files {
        r := Some(files[p]);
      } else {
        r := None;
      }
    }

    /** Writing a file replaces its whole text. */
    method Write(p: Path, content: string)
      modifies this
      ensures files == old(files)[p := content]
    {
      files := files[p := content];
    }
  }
}
