/** agent_tools/excel_agent_tools.py: `create_excel_file`, which makes the
    parent directory, checks `data` against `headers`, builds a table and
    writes it as an Excel sheet, and reports every outcome as a string. */
module ExcelTools {
  import opened Text
  import opened OsPath
  import opened Host

  /** A cell of `data`: any Python value; the procedure never looks inside. */
  datatype Cell = TextCell(text: string) | NumberCell(value: int) | NoneCell

  /** The table handed to `to_excel`: column names and rows. */
  datatype Frame = Frame(columns: seq<string>, rows: seq<seq<Cell>>)

  /** A file-system step, in the order the steps are attempted. */
  datatype FsEffect =
    | MakeDirs(dir: Path)                               // os.makedirs(dir, exist_ok=True)
    | WriteExcel(path: Path, sheet: string, frame: Frame)  // df.to_excel(path, sheet_name=sheet, index=False)

  /** What the libraries do: whether `makedirs` raises, whether building the
      table and writing it raises, and what `os.path.abspath` gives for the
      file path. */
  datatype ExcelEnv = ExcelEnv(makedirs: Call<()>, write: Call<()>, absPath: Path)

  const HeadersRequired := "Error: Headers must be provided if data is specified."

  const MismatchLead := "Error: Number of headers ("
  const MismatchMiddle := ") does not match number of data columns ("

  function MismatchMessage(headerCount: nat, columnCount: nat): string {
    MismatchLead + NatToString(headerCount) + (MismatchMiddle + NatToString(columnCount) + ").")
  }

  const CreateErrorLead := "Error creating Excel file: "

  function CreateError(e: Exception): string {
    CreateErrorLead + Str(e)
  }

  const SuccessLead := "Excel file created successfully at '"

  function SuccessMessage(absPath: Path, sheetName: string): string {
    SuccessLead + absPath + "' with sheet '" + sheetName + "'."
  }

  /** The two validation rules, with Python truthiness: an empty `data` or an
      empty `headers` skips the width check, which looks at the first row only. */
  function Validate(data: Option<seq<seq<Cell>>>, headers: Option<seq<string>>): (err: Option<string>)
    // Data without headers is refused, whatever the data.
    ensures data.Some? && headers.None? ==> err == Some(HeadersRequired)
    // Otherwise the only refusal is a width mismatch on the first row, and
    // its message names both widths.
    ensures headers.Some? && err.Some? ==>
      && data.Some? && data.value != [] && headers.value != []
      && |headers.value| != |data.value[0]|
      && err.value == MismatchMessage(|headers.value|, |data.value[0]|)
    // Everything else passes.
    ensures data.None? ==> err.None?
  {
    if data.Some? && headers.None? then
      Some(HeadersRequired)
    else if data.Some? && data.value != [] && headers.Some? && headers.value != []
      && |headers.value| != |data.value[0]| then
      Some(MismatchMessage(|headers.value|, |data.value[0]|))
    else
      None
  }

  /** The table built once validation passes: the given rows under the given
      headers; no rows when `data` is None, no columns when `headers` is None
      or empty. */
  function FrameOf(data: Option<seq<seq<Cell>>>, headers: Option<seq<string>>): (f: Frame)
    ensures f.rows == (if data.Some? then data.value else [])
    ensures f.columns == (if headers.Some? then headers.value else [])
    // A table built from accepted input has one column name per cell of its
    // first row, unless it has no rows or no column names.
    ensures Validate(data, headers).None? && f.rows != [] && f.columns != [] ==> |f.columns| == |f.rows[0]|
  {
    Frame(OrElse(headers, []), OrElse(data, []))
  }

  /** `create_excel_file(file_path, sheet_name, data, headers)`. It never
      raises: every exception becomes a message. */
  method CreateExcelFile(filePath: Path, sheetName: string, data: Option<seq<seq<Cell>>>, headers: Option<seq<string>>, env: ExcelEnv)
    returns (msg: string, effects: seq<FsEffect>)
    // The parent directory, when the path names one, is created first,
    // before any validation ...
    ensures DirName(filePath) != "" <==> effects != [] && effects[0] == MakeDirs(DirName(filePath))
    ensures forall e :: e in effects && e.MakeDirs? ==> e == MakeDirs(DirName(filePath))
    // ... and a failure there ends the call with its message.
    ensures DirName(filePath) != "" && env.makedirs.Raises? ==>
      msg == CreateError(env.makedirs.exc) && effects == [MakeDirs(DirName(filePath))]
    // Otherwise a rejected call returns the validation message and writes
    // nothing, although the directory has already been made.
    ensures (DirName(filePath) == "" || env.makedirs.Returns?) && Validate(data, headers).Some? ==>
      msg == Validate(data, headers).value && (forall e :: e in effects ==> e.MakeDirs?)
    // An accepted call writes exactly one sheet, holding the table for
    // `data` and `headers`, and reports the absolute path and the sheet name.
    ensures (DirName(filePath) == "" || env.makedirs.Returns?) && Validate(data, headers).None? ==>
      && |effects| > 0 && effects[|effects| - 1] == WriteExcel(filePath, sheetName, FrameOf(data, headers))
      && msg == if env.write.Raises? then CreateError(env.write.exc) else SuccessMessage(env.absPath, sheetName)
    ensures forall e :: e in effects && e.WriteExcel? ==> e == WriteExcel(filePath, sheetName, FrameOf(data, headers))
    // Unless `makedirs` raises, the steps are: the directory, when there is
    // one, then the sheet, when the input is accepted.
    ensures DirName(filePath) == "" || env.makedirs.Returns? ==>
      effects == (if DirName(filePath) != "" then [MakeDirs(DirName(filePath))] else [])
        + (if Validate(data, headers).None? then [WriteExcel(filePath, sheetName, FrameOf(data, headers))] else [])
  {
    effects := [];
    var dirName := DirName(filePath);
    if dirName != "" {
      effects := effects + [MakeDirs(dirName)];
      if env.makedirs.Raises? {
        return CreateError(env.makedirs.exc), effects;
      }
    }
    if data.Some? && headers.None? {
      return HeadersRequired, effects;
    }
    if data.Some? && data.value != [] && headers.Some? && headers.value != [] && |headers.value| != |data.value[0]| {
      return MismatchMessage(|headers.value|, |data.value[0]|), effects;
    }
    var frame;
    if data.Some? {
      frame := Frame(headers.value, data.value);
    } else {
      frame := Frame(if headers.Some? && headers.value != [] then headers.value else [], []);
    }
    effects := effects + [WriteExcel(filePath, sheetName, frame)];
    if env.write.Raises? {
      return CreateError(env.write.exc), effects;
    }
    msg := SuccessMessage(env.absPath, sheetName);
  }

  /** The width check reads the first row only: rows after it never change
      the verdict. */
  lemma LaterRowsNotChecked(first: seq<Cell>, rest1: seq<seq<Cell>>, rest2: seq<seq<Cell>>, headers: Option<seq<string>>)
    ensures Validate(Some([first] + rest1), headers) == Validate(Some([first] + rest2), headers)
  {
  }

  /** Data always needs headers, even an empty list of rows. */
  lemma DataWithoutHeadersRejected(data: seq<seq<Cell>>)
    ensures Validate(Some(data), None) == Some(HeadersRequired)
  {
  }

  /** Whatever passes validation has a header per column of its first row,
      unless one of the two is empty. */
  lemma AcceptedWidthsAgree(data: Option<seq<seq<Cell>>>, headers: Option<seq<string>>)
    requires Validate(data, headers).None?
    ensures data.Some? ==> headers.Some?
    ensures data.Some? && data.value != [] && headers.value != [] ==> |headers.value| == |data.value[0]|
  {
  }

  /** Empty rows with headers, or headers alone, pass and give a table with
      those columns and no rows. */
  lemma HeadersOnlyFrame(data: Option<seq<seq<Cell>>>, h: seq<string>)
    requires data == None || data == Some([])
    ensures Validate(data, Some(h)).None?
    ensures FrameOf(data, Some(h)) == Frame(h, [])
  {
  }

  /** The mismatch message determines both counts it names. */
  lemma {:induction false} MismatchMessageNamesBoth(h1: nat, d1: nat, h2: nat, d2: nat)
    requires MismatchMessage(h1, d1) == MismatchMessage(h2, d2)
    ensures h1 == h2 && d1 == d2
  {
    assert MismatchMiddle[0] == ')' && ")."[0] == ')';
    TwoNumbersReadBack(MismatchLead, MismatchMiddle, ").", h1, d1, h2, d2);
  }
}
