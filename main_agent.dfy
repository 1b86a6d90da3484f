/**
 * `MainAgent` (agents/main_agent.py): the agent that holds the uploaded
 * dataset and the conversation, turns a user message into a visualization
 * decision through one LLM call, and turns that decision into instructions
 * for the visualization step.
 *
 * What lies outside the file is a parameter: pandas' readers and profiling,
 * the `LLM_MODEL` setting, the LLM's reply and `json.loads`.
 */
module Agent {
  import opened Results
  import opened PyStrings
  import opened PyValues
  import opened JsonExtraction

  /** The tabular formats an upload is read as. */
  datatype Format = Csv | Excel

  /** A pandas DataFrame: named columns and rows of cells. */
  datatype Frame = Frame(columns: seq<string>, rows: seq<seq<Value>>)

  /** What pandas reports about a frame; the agent packs it into the `dataset_info` dictionary. */
  datatype Profile = Profile(
    rowCount: nat,
    columnCount: nat,
    columns: seq<string>,
    dtypes: map<string, string>,
    missing: map<string, int>,
    numeric: seq<string>,
    categorical: seq<string>,
    sample: map<string, Value>)

  /** `pd.read_csv` / `pd.read_excel`: a frame, or the message of the exception raised. */
  type Reader = (Format, string) -> Result<Frame, string>
  /** Profiling a frame with pandas: a profile, or the message of the exception raised. */
  type Profiler = Frame -> Result<Profile, string>

  /** One entry of `conversation_history`: `{"role": ..., "content": ...}`. */
  datatype Turn = Turn(role: string, content: Value)

  /** The outcome of `client.messages.create`: a raised exception, or the text of the content blocks. */
  datatype LlmReply = ApiError(msg: string) | Reply(content: seq<string>)

  const NoDataset: string := "Nejdříve nahrajte dataset"
  const UploadFailed: string := "Chyba při zpracování souboru: "
  const Unsupported: string := "Nepodporovaný typ souboru"
  const InterpretFailed: string := "Chyba při interpretaci požadavku: "
  const NoModel: string := "LLM_MODEL není nastaveno v .env/Secrets"

  /** The keys of the `dataset_info` dictionary. */
  const ProfileKeys: set<string> :=
    {"shape", "columns", "dtypes", "missing_values", "numeric_columns", "categorical_columns", "sample_data"}

  /** The keys of the instructions handed to the visualization step. */
  const InstructionKeys: set<string> :=
    {"dataset_info", "dataset_path", "visualization_type", "graphs", "reasoning"}

  function ErrorDict(msg: string): map<string, Value>
  {
    map["error" := VStr(msg)]
  }

  /** The dictionary `interpret_user_request` returns when an exception is caught. */
  function RaisedDict(detail: string, raw: string): map<string, Value>
  {
    map["error" := VStr(InterpretFailed + detail), "raw" := VStr(raw)]
  }

  function StrList(names: seq<string>): (r: seq<Value>)
    ensures |r| == |names| && forall k :: 0 <= k < |r| ==> r[k] == VStr(names[k])
  {
    if names == [] then [] else [VStr(names[0])] + StrList(names[1..])
  }

  /**
   * Which reader an uploaded file goes to: CSV for a name ending ".csv",
   * Excel for one ending ".xlsx" or ".xls", none otherwise (case-sensitive).
   */
  function UploadFormat(path: string): (f: Option<Format>)
    ensures f == Some(Csv) <==> exists stem :: path == stem + ".csv"
    ensures f == Some(Excel) <==>
              (forall stem :: path != stem + ".csv") &&
              ((exists stem :: path == stem + ".xlsx") || (exists stem :: path == stem + ".xls"))
    ensures f == None <==>
              forall stem :: path != stem + ".csv" && path != stem + ".xlsx" && path != stem + ".xls"
  {
    if EndsWith(path, ".csv") then Some(Csv)
    else if EndsWith(path, ".xlsx") || EndsWith(path, ".xls") then Some(Excel)
    else None
  }

  /**
   * Reading the upload: a ".csv" name goes to the CSV reader, a ".xlsx" or
   * ".xls" name to the Excel reader, and any other name raises before any
   * reader runs.
   */
  function LoadFrame(path: string, read: Reader): (r: Result<Frame, string>)
    ensures (exists stem :: path == stem + ".csv") ==> r == read(Csv, path)
    ensures (forall stem :: path != stem + ".csv") &&
            ((exists stem :: path == stem + ".xlsx") || (exists stem :: path == stem + ".xls")) ==>
              r == read(Excel, path)
    ensures (forall stem :: path != stem + ".csv" && path != stem + ".xlsx" && path != stem + ".xls") ==>
              r == Failure(Unsupported)
  {
    match UploadFormat(path)
    case None => Failure(Unsupported)
    case Some(format) => read(format, path)
  }

  /** The `dataset_info` dictionary: always the seven profile keys, so never falsy. */
  function ProfileDict(p: Profile): (r: map<string, Value>)
    ensures r.Keys == ProfileKeys
    ensures Truthy(VDict(r))
    ensures r["shape"] == VList([VInt(p.rowCount), VInt(p.columnCount)])
    ensures r["columns"] == VList(StrList(p.columns))
    ensures r["sample_data"] == VDict(p.sample)
  {
    var r := map[
      "shape" := VList([VInt(p.rowCount), VInt(p.columnCount)]),
      "columns" := VList(StrList(p.columns)),
      "dtypes" := VDict(map k | k in p.dtypes :: VStr(p.dtypes[k])),
      "missing_values" := VDict(map k | k in p.missing :: VInt(p.missing[k])),
      "numeric_columns" := VList(StrList(p.numeric)),
      "categorical_columns" := VList(StrList(p.categorical)),
      "sample_data" := VDict(p.sample)];
    assert "shape" in r;
    r
  }

  /** `dataset_info` as the agent holds it: `None`, or a profile dictionary. */
  ghost predicate IsDatasetInfo(v: Value)
  {
    v == VNone || (v.VDict? && v.entries.Keys == ProfileKeys)
  }

  /** `not model` for the value of `os.getenv("LLM_MODEL")`. */
  predicate ModelMissing(llmModel: Option<string>)
  {
    llmModel.None? || llmModel.value == []
  }

  /** `response.content[0].text if response and response.content else ""`. */
  function ResponseText(reply: LlmReply): string
    requires reply.Reply?
  {
    if reply.content != [] then reply.content[0] else ""
  }

  /** The `AttributeError` message of calling `.get` on a decoded value that is not a dictionary. */
  function NoGetMessage(v: Value): string
  {
    "'" + TypeName(v) + "' object has no attribute 'get'"
  }

  /** What one call of `interpret_user_request` returns and which turns it appends to the history. */
  datatype Interpretation = Interpretation(reply: map<string, Value>, turns: seq<Turn>)

  /**
   * `interpret_user_request` as a function of `dataset_info`, the message,
   * the `LLM_MODEL` setting, the LLM's reply and the decoder.
   * Without a dataset nothing is asked and nothing recorded. A decision is
   * returned only when the reply decodes to a dictionary, and then exactly
   * two turns are recorded: the user's message and the decision's reasoning.
   * Every caught exception yields an "error" and a "raw" entry; only a
   * decoded value that is not a dictionary has left the user's turn behind.
   */
  function Interpret(info: Value, userMessage: string, llmModel: Option<string>, reply: LlmReply, parse: Decoder)
    : (o: Interpretation)
    ensures !Truthy(info) ==> o == Interpretation(ErrorDict(NoDataset), [])
    ensures |o.turns| <= 2
    ensures o.turns != [] ==> o.turns[0] == Turn("user", VStr(userMessage))
    ensures |o.turns| == 2 <==>
              Truthy(info) && !ModelMissing(llmModel) && reply.Reply? &&
              ExtractJson(ResponseText(reply), parse) == Success(VDict(o.reply))
    ensures |o.turns| == 2 ==> o.turns[1] == Turn("assistant", Get(o.reply, "reasoning", VStr("")))
    ensures |o.turns| == 1 <==>
              Truthy(info) && !ModelMissing(llmModel) && reply.Reply? &&
              ExtractJson(ResponseText(reply), parse).Success? &&
              !ExtractJson(ResponseText(reply), parse).value.VDict?
    ensures Truthy(info) && |o.turns| < 2 ==>
              o.reply.Keys == {"error", "raw"} &&
              o.reply["raw"] == VStr(if !ModelMissing(llmModel) && reply.Reply? then ResponseText(reply) else "")
    ensures |o.turns| < 2 ==> "error" in o.reply && Truthy(o.reply["error"])
    ensures Truthy(info) && ModelMissing(llmModel) ==> o.reply == RaisedDict(NoModel, "")
  {
    if !Truthy(info) then Interpretation(ErrorDict(NoDataset), [])
    else if ModelMissing(llmModel) then Interpretation(RaisedDict(NoModel, ""), [])
    else if reply.ApiError? then Interpretation(RaisedDict(reply.msg, ""), [])
    else
      var text := ResponseText(reply);
      match ExtractJson(text, parse)
      case Failure(e) => Interpretation(RaisedDict(Message(e), text), [])
      case Success(decision) =>
        var asked := Turn("user", VStr(userMessage));
        if !decision.VDict? then Interpretation(RaisedDict(NoGetMessage(decision), text), [asked])
        else Interpretation(decision.entries, [asked, Turn("assistant", Get(decision.entries, "reasoning", VStr("")))])
  }

  class MainAgent {
    /** `conversation_history` */
    var conversationHistory: seq<Turn>
    /** `current_dataset`: the last frame read successfully */
    var currentDataset: Option<Frame>
    /** `dataset_info`: `None` or the profile of a frame that was read */
    var datasetInfo: Value

    ghost predicate Valid()
      reads this
    {
      IsDatasetInfo(datasetInfo) && (datasetInfo != VNone ==> currentDataset.Some?)
    }

    /** `__init__`: an empty conversation and no dataset. The API client is not part of the state modelled. */
    constructor ()
      ensures Valid()
      ensures conversationHistory == [] && currentDataset == None && datasetInfo == VNone
    {
      conversationHistory := [];
      currentDataset := None;
      datasetInfo := VNone;
    }

    /**
     * `process_uploaded_file`: dispatch on the extension, read, remember the
     * frame, profile it and remember the profile. A failure at any step
     * returns `{"error": ...}`; the frame is kept if only profiling failed.
     */
    method ProcessUploadedFile(path: string, read: Reader, profile: Profiler) returns (r: map<string, Value>)
      requires Valid()
      modifies this`currentDataset, this`datasetInfo
      ensures Valid()
      ensures LoadFrame(path, read).Failure? ==>
                r == ErrorDict(UploadFailed + LoadFrame(path, read).error) &&
                currentDataset == old(currentDataset) && datasetInfo == old(datasetInfo)
      ensures LoadFrame(path, read).Success? ==> currentDataset == Some(LoadFrame(path, read).value)
      ensures LoadFrame(path, read).Success? && profile(LoadFrame(path, read).value).Failure? ==>
                r == ErrorDict(UploadFailed + profile(LoadFrame(path, read).value).error) &&
                datasetInfo == old(datasetInfo)
      ensures LoadFrame(path, read).Success? && profile(LoadFrame(path, read).value).Success? ==>
                r == ProfileDict(profile(LoadFrame(path, read).value).value) && datasetInfo == VDict(r)
    {
      var format := UploadFormat(path);
      if format.None? {
        return ErrorDict(UploadFailed + Unsupported);
      }
      var loaded := read(format.value, path);
      if loaded.Failure? {
        return ErrorDict(UploadFailed + loaded.error);
      }
      var df := loaded.value;
      currentDataset := Some(df);
      var analysed := profile(df);
      if analysed.Failure? {
        return ErrorDict(UploadFailed + analysed.error);
      }
      r := ProfileDict(analysed.value);
      datasetInfo := VDict(r);
    }

    /**
     * `interpret_user_request`: the history grows exactly by the turns
     * `Interpret` records, and the reply is the one it computes.
     */
    method InterpretUserRequest(userMessage: string, llmModel: Option<string>, reply: LlmReply, parse: Decoder)
      returns (r: map<string, Value>)
      requires Valid()
      modifies this`conversationHistory
      ensures Valid()
      ensures r == Interpret(datasetInfo, userMessage, llmModel, reply, parse).reply
      ensures conversationHistory ==
                old(conversationHistory) + Interpret(datasetInfo, userMessage, llmModel, reply, parse).turns
    {
      if !Truthy(datasetInfo) {
        return ErrorDict(NoDataset);
      }
      if ModelMissing(llmModel) {
        return RaisedDict(NoModel, "");
      }
      if reply.ApiError? {
        return RaisedDict(reply.msg, "");
      }
      var responseText := ResponseText(reply);
      var decision := ExtractJson(responseText, parse);
      if decision.Failure? {
        return RaisedDict(Message(decision.error), responseText);
      }
      conversationHistory := conversationHistory + [Turn("user", VStr(userMessage))];
      if !decision.value.VDict? {
        return RaisedDict(NoGetMessage(decision.value), responseText);
      }
      var reasoning := Get(decision.value.entries, "reasoning", VStr(""));
      conversationHistory := conversationHistory + [Turn("assistant", reasoning)];
      r := decision.value.entries;
    }

    /**
     * `generate_visualization_instructions`: a decision with a truthy "error"
     * is passed on unchanged; otherwise the instructions carry the held
     * `dataset_info`, no dataset path, the visualization type ("specific"
     * exactly when the decision asks for specific graphs), the graphs of
     * that kind (default []) and the reasoning (default "").
     */
    function GenerateVisualizationInstructions(decision: map<string, Value>): (r: map<string, Value>)
      reads this
      ensures Truthy(Get(decision, "error", VNone)) ==> r == decision
      ensures !Truthy(Get(decision, "error", VNone)) ==>
                r.Keys == InstructionKeys &&
                r["dataset_info"] == datasetInfo &&
                r["dataset_path"] == VNone &&
                (r["visualization_type"] == VStr("specific") <==> Truthy(Get(decision, "specific_graphs", VNone))) &&
                (r["visualization_type"] == VStr("default") <==> !Truthy(Get(decision, "specific_graphs", VNone))) &&
                r["graphs"] == Get(decision, if Truthy(Get(decision, "specific_graphs", VNone)) then "graph_types" else "default_graphs", VList([])) &&
                r["reasoning"] == Get(decision, "reasoning", VStr(""))
    {
      if Truthy(Get(decision, "error", VNone)) then decision
      else
        var specific := Truthy(Get(decision, "specific_graphs", VNone));
        map[
          "dataset_info" := datasetInfo,
          "dataset_path" := VNone,
          "visualization_type" := VStr(if specific then "specific" else "default"),
          "graphs" := if specific then Get(decision, "graph_types", VList([])) else Get(decision, "default_graphs", VList([])),
          "reasoning" := Get(decision, "reasoning", VStr(""))]
    }

    /** `reset_conversation`: forget the conversation and the dataset. */
    method ResetConversation()
      modifies this
      ensures Valid()
      ensures conversationHistory == [] && currentDataset == None && datasetInfo == VNone
    {
      conversationHistory := [];
      currentDataset := None;
      datasetInfo := VNone;
    }
  }

  /**
   * In a consistent agent the dataset check of `interpret_user_request`
   * passes exactly when a profile is held, and a frame is held then too.
   */
  lemma HeldProfileHasFrame(agent: MainAgent)
    requires agent.Valid()
    ensures Truthy(agent.datasetInfo) <==> agent.datasetInfo != VNone
    ensures Truthy(agent.datasetInfo) ==> agent.currentDataset.Some?
  {
  }

  /** Once a profile is held, a request is always put to the LLM: the dataset check no longer stops it. */
  lemma UploadedDatasetIsAsked(p: Profile, userMessage: string, llmModel: Option<string>, reply: LlmReply, parse: Decoder)
    ensures var o := Interpret(VDict(ProfileDict(p)), userMessage, llmModel, reply, parse);
            |o.turns| == 2 || o.reply.Keys == {"error", "raw"}
  {
  }

  /** A failed interpretation reaches the visualization step unchanged. */
  lemma FailedInterpretationPassesThrough(agent: MainAgent, userMessage: string, llmModel: Option<string>,
                                          reply: LlmReply, parse: Decoder)
    ensures var o := Interpret(agent.datasetInfo, userMessage, llmModel, reply, parse);
            |o.turns| < 2 ==> agent.GenerateVisualizationInstructions(o.reply) == o.reply
  {
  }

  /** The reasoning the instructions carry is the one recorded as the assistant's turn. */
  lemma ReasoningIsRecorded(agent: MainAgent, userMessage: string, llmModel: Option<string>,
                            reply: LlmReply, parse: Decoder)
    ensures var o := Interpret(agent.datasetInfo, userMessage, llmModel, reply, parse);
            |o.turns| == 2 && !Truthy(Get(o.reply, "error", VNone)) ==>
              agent.GenerateVisualizationInstructions(o.reply)["reasoning"] == o.turns[1].content
  {
  }
}
