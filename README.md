# MainAgent of the data-visualization chatbot, modelled in Dafny

This project models `agents/main_agent.py` of the chatbot that lets a user
upload a table (CSV or Excel) and ask, in chat, for charts. `MainAgent` is
the part that:

- reads an upload, dispatching on the file extension, and keeps the frame and
  its profile (`current_dataset`, `dataset_info`);
- turns a user message into a visualization decision with one LLM call,
  extracting the JSON from the LLM's raw text (`_extract_json`), and records
  the exchange in `conversation_history`;
- turns a decision into instructions for the visualization step;
- resets the conversation and the dataset.

Modules:

- `Results` (`results.dfy`): `Option` and `Result`.
- `PyStrings` (`pystrings.dfy`): the Python string operations the code uses:
  `find`, `in`, `strip`, `endswith`, and first/last position of a character.
  Each is given a declarative specification.
- `PyValues` (`pyvalues.dfy`): JSON-shaped Python values, truthiness,
  `dict.get`, and type names.
- `JsonExtraction` (`json_extraction.dfy`): `_extract_json`. `json.loads` is
  a parameter (`Decoder`). It maps a string to a value or to the message of
  the error it raises. What is verified is which string reaches it, and in
  which order the fallbacks run. The regular expression `\{[\s\S]*\}` is
  modelled as "first `{` to last `}`". `BraceSpanIsSearch` proves that this
  is the leftmost, greedy match.
- `Agent` (`main_agent.dfy`): the class `MainAgent` with its three fields.
  Its methods change them as the source does. `Interpret` is the pure
  specification of `interpret_user_request`.

Things outside the file are parameters of the operations:

- pandas' readers (`Reader`) and profiling (`Profiler`);
- the value of the `LLM_MODEL` environment variable;
- the LLM's reply (`LlmReply`: a raised exception or the content blocks' text);
- the decoder.

Behaviour worth knowing, as the code has it:

- When the text contains "```json" but no closing fence, the whole text is
  decoded, opening fence included (`UnclosedTagDecodesWholeText`).
- After the fenced blocks, the code tries the whole text, and then the span
  from the first `{` to the last `}` (`DirectParseSpec`).
- A decoded value that is not a dictionary (a list, a string, a number) makes
  `decision.get` raise. This happens after the user's turn has already been
  appended, so the history grows by one turn and an error dictionary is
  returned. `Interpret` states this case explicitly (`|o.turns| == 1`). Every
  other failure leaves the history unchanged.

## Model

| member | source | states |
|---|---|---|
| `PyStrings.FindIsLeast` | agents/main_agent.py:75-76 | `str.find(pat, start)` returns the least position at or after `start` where `pat` occurs (with `Find`'s own contract, that it is an occurrence), and -1 exactly when there is none |
| `PyStrings.Contains` | agents/main_agent.py:71-74 | `pat in s` holds exactly when `pat` occurs at some position |
| `PyStrings.FindFirst` | agents/main_agent.py:80-81 | an occurrence with no earlier one from `start` is the position `find` returns |
| `PyStrings.EndsWith` | agents/main_agent.py:34-36 | `s.endswith(x)` holds exactly when `s` is some stem followed by `x` |
| `PyStrings.StripStartSpec` | agents/main_agent.py:77 | the leading strip returns a suffix; everything it removed is whitespace and the rest does not start with whitespace |
| `PyStrings.StripEndSpec` | agents/main_agent.py:77 | the trailing strip returns a prefix; everything it removed is whitespace and the rest does not end with whitespace |
| `PyStrings.StripSpec` | agents/main_agent.py:77 | `str.strip()` returns a slice of the text with only whitespace before and after it |
| `PyStrings.StripUnpaddedResult` | agents/main_agent.py:82 | what `strip` returns neither starts nor ends with whitespace |
| `PyStrings.StripStartPadded` | agents/main_agent.py:77 | leading whitespace in front of an unpadded string is exactly what the leading strip removes |
| `PyStrings.StripEndPadded` | agents/main_agent.py:82 | trailing whitespace after an unpadded string is exactly what the trailing strip removes |
| `PyStrings.StripPadded` | agents/main_agent.py:82 | stripping whitespace-padded text gives back the unpadded text |
| `PyStrings.StripUnpadded` | agents/main_agent.py:77 | a string without surrounding whitespace is left unchanged by `strip` |
| `PyStrings.StripIdempotent` | agents/main_agent.py:82 | `strip` applied twice equals `strip` applied once |
| `PyStrings.IndexOfIsFirst` | agents/main_agent.py:92 | the first position of a character (with `IndexOf`'s own contract, that it holds the character), and -1 exactly when it is absent |
| `PyStrings.LastIndexOfIsLast` | agents/main_agent.py:92 | the last position of a character (with `LastIndexOf`'s own contract, that it holds the character), and -1 exactly when it is absent |
| `JsonExtraction.BlockFromSpec` | agents/main_agent.py:76-77 | the block starting at `start` is the stripped text up to the next "```" at or after `start`; with none, it is the whole text |
| `JsonExtraction.BlockFromExcerpt` | agents/main_agent.py:76-77 | the block is a piece of the text, possibly stripped |
| `JsonExtraction.BlockAfterSpec` | agents/main_agent.py:73-77 | the candidate of a fenced branch is the stripped text from the end of the first opening fence to the next "```"; with no closing fence it is the whole text |
| `JsonExtraction.BlockAfterExcerpt` | agents/main_agent.py:80-82 | the candidate of a fenced branch is a piece of the text, possibly stripped |
| `JsonExtraction.BraceSpanIsSearch` | agents/main_agent.py:92-95 | the span is the leftmost, longest match of `\{[\s\S]*\}`; there is none exactly when no `{` is followed by a `}` |
| `JsonExtraction.DirectParseSpec` | agents/main_agent.py:87-95 | a text that decodes is returned as decoded. Otherwise the regular-expression match is decoded. With no match, the first decoder error is raised again |
| `JsonExtraction.DirectParseNeverInvents` | agents/main_agent.py:87-95 | the direct parse returns a value decoded from a piece of the text, or a decoder error about a piece of it |
| `JsonExtraction.ExtractJson` | agents/main_agent.py:66-69 | "Empty response" is raised for empty text, and only for empty text |
| `JsonExtraction.EmptyResponseDecodesNothing` | agents/main_agent.py:68-69 | for empty text the outcome is "Empty response" whatever the decoder would say |
| `JsonExtraction.TaggedBranchDecides` | agents/main_agent.py:71-78 | with "```json" present, decoding its block decides the outcome; a decoder error there propagates with no further fallback |
| `JsonExtraction.FencedBranchFallsBack` | agents/main_agent.py:80-86 | with "```" but no "```json", a block that decodes is returned; otherwise the direct parse decides |
| `JsonExtraction.UnfencedIsDirect` | agents/main_agent.py:87-95 | a non-empty text with no fence goes straight to the direct parse |
| `JsonExtraction.ExtractJsonNeverInvents` | agents/main_agent.py:66-95 | any value returned was decoded from a piece of the text, and any error raised for non-empty text is the decoder's complaint about a piece of it |
| `JsonExtraction.TagHasFence` | agents/main_agent.py:71-74 | a text containing "```json" contains "```", so the `json` branch is always reached |
| `JsonExtraction.TaggedBlockCandidate` | agents/main_agent.py:73-77 | for `pre` + "```json" + body + "```" + `post` with no backticks in `pre` or the body, the candidate is the stripped body |
| `JsonExtraction.TaggedBlockInterior` | agents/main_agent.py:73-78 | such a reply decodes exactly the stripped body |
| `JsonExtraction.UnclosedTagCandidate` | agents/main_agent.py:76-77 | for `pre` + "```json" + `rest` with no backtick in `pre` or `rest` (an unclosed `json` block), the candidate is the whole text, opening fence included; the general unclosed case is `BlockAfterSpec`'s no-closing-fence clause |
| `JsonExtraction.UnclosedTagDecodesWholeText` | agents/main_agent.py:76-78 | under the same condition (no backtick in `pre` or `rest`), the whole text, fence included, is what the decoder gets |
| `Agent.UploadFormat` | agents/main_agent.py:34-39 | CSV exactly for names ending ".csv"; Excel exactly for names not ending ".csv" that end ".xlsx" or ".xls"; otherwise unsupported |
| `Agent.LoadFrame` | agents/main_agent.py:33-39 | a name ending ".csv" is read by the CSV reader; one ending ".xlsx" or ".xls" (and not ".csv") by the Excel reader; any other name raises "Nepodporovaný typ souboru" before any reader runs |
| `Agent.ProfileDict` | agents/main_agent.py:44-58 | `dataset_info` always has the seven profile keys, so it is truthy; its shape is [rows, columns] |
| `Agent.StrList` | agents/main_agent.py:46 | a list of names becomes a list of Python strings, element by element |
| `Agent.Interpret` | agents/main_agent.py:97-160 | no dataset: the "upload first" error, no turn recorded. Exactly two turns (the user's message, then the reasoning, default "") exactly when the reply decodes to a dictionary, which is returned. One turn exactly when it decodes to something else. Any other failure records nothing. Every caught failure returns "error" and "raw", and "raw" is the response text once it exists |
| `Agent.MainAgent.constructor` | agents/main_agent.py:16-21 | a new agent has an empty history and no dataset |
| `Agent.MainAgent.ProcessUploadedFile` | agents/main_agent.py:23-64 | an unsupported or unreadable file returns only an "error" and changes nothing. A profiling failure keeps the new frame and the old profile. Success stores the frame and its profile dictionary and returns that dictionary |
| `Agent.MainAgent.InterpretUserRequest` | agents/main_agent.py:97-160 | with two appends, the history becomes the old history followed by the turns `Interpret` records; the reply is the one `Interpret` returns |
| `Agent.MainAgent.GenerateVisualizationInstructions` | agents/main_agent.py:162-187 | a decision with a truthy "error" is returned unchanged. Otherwise the result has exactly five keys. `dataset_info` is the one held and `dataset_path` is None. The type is "specific" exactly when `specific_graphs` is truthy, else "default". The graphs are `graph_types` or `default_graphs` accordingly, default []. The reasoning defaults to "" |
| `Agent.MainAgent.ResetConversation` | agents/main_agent.py:193-197 | the history is empty and both `current_dataset` and `dataset_info` are None |
| `Agent.HeldProfileHasFrame` | agents/main_agent.py:107-108 | in an agent that keeps its invariant (`dataset_info` is None or a profile dictionary, and a frame is held whenever a profile is), the dataset check passes exactly when a profile is held, and a frame is held then too |
| `Agent.UploadedDatasetIsAsked` | agents/main_agent.py:107-108 | with a profile held, a request is never stopped by the dataset check: it records two turns or returns "error" and "raw" |
| `Agent.FailedInterpretationPassesThrough` | agents/main_agent.py:158-175 | every failed interpretation reaches the visualization step unchanged |
| `Agent.ReasoningIsRecorded` | agents/main_agent.py:151-184 | the reasoning in the instructions equals the assistant turn recorded for the same decision |

## Left out

- `agents/visualization_agent.py` beyond its constructor is not part of this model. That covers script generation, the sandbox directory, subprocess execution with a timeout, and output-file discovery.
- `gradio_app.py` and `main.py` (the chat UI, its handlers and the application launch) are outside the core.
- The prompt text (agents/main_agent.py:111-130) is not modelled. It only goes to the LLM, and the LLM's reply is a free parameter. The model therefore does not relate the reply to the prompt.
- The Anthropic client, the model name's use and `max_tokens` belong to the network call. The outcome of that call is the `LlmReply` parameter. A content block without `.text` is not modelled.
- pandas reading and profiling are the `Reader` and `Profiler` parameters. The dtype strings, missing-value counts and sample rows come from them.
- `json.loads` is the `Decoder` parameter. Numbers are unbounded integers and reals, so NaN, Infinity and float rounding are not represented.
- Python dictionaries keep insertion order; Dafny maps do not. The order of keys in the returned dictionaries is not modelled.
- `get_conversation_history` returns the history list itself, so the caller aliases it. The model exposes the field instead, and the aliasing is not modelled.
- Strings are sequences of Unicode scalar values. `strip` removes the characters Python's `str.isspace` accepts, as listed in `PyStrings.IsSpace`.
