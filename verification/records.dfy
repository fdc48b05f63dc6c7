/** The entities of one query batch and of the engine's configuration, as the
    Gerrit JSON and the config file present them once decoded. */
module Records {
  import opened Results

  /** A line count of a file entry: a number, or the `"-"` sentinel Gerrit
      reports for a side with no lines (binary files, pure renames). */
  datatype LineCount = Lines(n: int) | Dash

  /** The number a line count stands for: the sentinel reads as 0. */
  function Resolve(c: LineCount): int
  {
    match c
    case Lines(n) => n
    case Dash => 0
  }

  /** One entry of the current patch set's file list. */
  datatype FileEntry = FileEntry(path: string, insertions: LineCount, deletions: LineCount)

  /** An inline comment: the file it targets, its text and the reviewer's username. */
  datatype Comment = Comment(file: string, message: string, reviewer: string)

  /** One patch set; a patch set without a `comments` key has an empty list. */
  datatype PatchSet = PatchSet(comments: seq<Comment>)

  /** A change-level message, carried to the subject report unchanged. */
  datatype Message = Message(timestamp: int, reviewer: string, message: string)

  /** One change record of the query output. */
  datatype Change = Change(
    id: string,
    number: int,
    url: string,
    project: string,
    subject: string,
    owner: string,            // owner.username
    lastUpdated: int,         // epoch seconds
    files: seq<FileEntry>,    // currentPatchSet.files
    patchSets: seq<PatchSet>,
    messages: seq<Message>)   // the change-level `comments` payload

  /** A normalised row: one (file, comment) pair of a change, or one file with
      no comment, in which case reviewer and comment are both empty. */
  datatype Row = Row(
    id: string,
    owner: string,
    file: string,
    insertions: int,
    deletions: int,
    reviewer: string,
    comment: string)

  /** A normalised row joined with its change's project and subject, the input
      of the per-(project, file) reduction. */
  datatype FileRow = FileRow(project: string, subject: string, row: Row)

  /** A compiled subject regex: whether `re.match` succeeds on a subject, and
      the text of the named group the column reads when it does. */
  datatype Regex = Regex(matches: string -> bool, extract: string -> Option<string>)

  /** The parsed column section of one report type. */
  datatype ColumnConfig = ColumnConfig(
    mandatory: seq<string>,
    optional: seq<string>,
    columns: seq<string>,
    filterOwnerComments: bool)

  /** Everything the two reports read from the configuration. */
  datatype Config = Config(
    subjectPatterns: map<string, Regex>,  // [SubjectRegex]
    fileToFilter: string -> bool,         // [CommonRegex] file_to_filter
    fileColumns: ColumnConfig,            // [FileMetrics]
    subjectColumns: ColumnConfig)         // [SubjectMetrics]
}
