# Path-file reader of the aggregate reconstruction tool

This project models class `PathData` of `aggregate-reconstruction/reconstruct_aggregates.py`.
`PathData` reads a vizmo path file with no header lines.
Each line of the file is one step of a trajectory.
A line holds `numModels` position triples `x y z`, then `numModels` rotation triples `a b g`.
The fields are separated by single spaces.
The class builds `stepDict`, a dictionary from step number (0, 1, …) to that step's list of model configurations.
Each configuration is a 6-tuple `(x, y, z, a, b, g)` of the line's tokens, kept as strings.
`getConfiguration` looks up one model of one step.

There are two modules:

- `PyStr` (`python_str.dfy`) models the two Python 2 string builtins the parser uses:
  - `str.strip()`: removes leading and trailing ASCII whitespace (space and codes 9 to 13);
  - `str.split(' ')`: cuts at every single space, so neighbouring spaces give empty pieces.

  Both are pure, so they are functions. Lemmas tie them to independent references:
  - the slice that `strip` keeps;
  - the number of spaces, for `split`;
  - `' '.join`, which `split` inverts in both directions.
- `ReconstructAggregates` (`reconstruct_aggregates.dfy`) holds:
  - the value types: `Position`, `Rotation`, `Config`, and the `Error` raised;
  - the specification functions: `Tokens`, `ParsedTokens`, `Parsed`, `ParsedLines`, `FirstError` and `Steps`;
  - class `PathData`, with the source's `stepDict` as a `map` field.

`ReadFile` and `Parse` are methods with the source's loops. Each is proved equal to its specification function.
`GetConfiguration` is a function that reads the object.

A Python `IndexError` becomes `Err(IndexError(i))` in a `Result`. The `:-` operator propagates it, as the exception propagates in Python.
`readFile` can stop half way through a file. It then returns `Fail(error)`, and the lines stored before the failing one stay in the table.

## Model

| member | source | states |
|---|---|---|
| `PyStr.StripShape` | aggregate-reconstruction/reconstruct_aggregates.py:42 | `line.strip()` is the slice of the line from its first non-whitespace character to its last: only whitespace is dropped, from both ends, and the result neither starts nor ends with whitespace |
| `PyStr.StripIdempotent` | aggregate-reconstruction/reconstruct_aggregates.py:42 | stripping an already stripped line changes nothing |
| `PyStr.SplitCount` | aggregate-reconstruction/reconstruct_aggregates.py:43 | `split(' ')` yields exactly one more piece than there are spaces in the line |
| `PyStr.SplitPieces` | aggregate-reconstruction/reconstruct_aggregates.py:43 | no piece of `split(' ')` contains a space |
| `PyStr.JoinSplit` | aggregate-reconstruction/reconstruct_aggregates.py:43 | joining the pieces with single spaces gives back the line, so no character is lost or moved |
| `PyStr.SplitJoin` | aggregate-reconstruction/reconstruct_aggregates.py:43 | splitting space-free pieces joined by single spaces gives back exactly those pieces |
| `PyStr.DoubleSpace` | aggregate-reconstruction/reconstruct_aggregates.py:43 | after a space-free first piece, one space starts the next piece, while two spaces insert an empty piece before it |
| `PyStr.JoinWords` | aggregate-reconstruction/reconstruct_aggregates.py:42-43 | words joined by single spaces, with or without a trailing newline, survive `strip` and `split(' ')` unchanged |
| `ReconstructAggregates.DoubleSpaceShifts` | aggregate-reconstruction/reconstruct_aggregates.py:11 | a double space after the first token makes token 1 empty and shifts every later token one place up, the reason the data file had its double spaces replaced |
| `ReconstructAggregates.PathData.Parse` | aggregate-reconstruction/reconstruct_aggregates.py:38-75 | the three loops of `parse` return or raise exactly what `Parsed` says: the `IndexError` of the first index past the token list, or the list of `ModelCount(numModels)` configurations built from the position and rotation triples |
| `ReconstructAggregates.ParsedOutcome` | aggregate-reconstruction/reconstruct_aggregates.py:42-68 | a line parses if and only if its stripped form has at least `6n - 1` spaces (n the model count); otherwise the error is `IndexError` at the token count |
| `ReconstructAggregates.ParsedFields` | aggregate-reconstruction/reconstruct_aggregates.py:47-75 | a successful parse has one entry per model, and entry k is tokens 3k, 3k+1, 3k+2 (`xID = 3*receptorID`) followed by tokens 3n+3k, 3n+3k+1, 3n+3k+2 (`aID = baseOffset + 3*allergenID`) |
| `ReconstructAggregates.ParsedIgnoresTail` | aggregate-reconstruction/reconstruct_aggregates.py:47-68 | only the first `6n` tokens are read: two token lists that agree on them parse to the same result |
| `ReconstructAggregates.ParsedNoModels` | aggregate-reconstruction/reconstruct_aggregates.py:49-72 | with `numModels <= 0` every range is empty and every line parses to the empty list |
| `ReconstructAggregates.ParseLine` | aggregate-reconstruction/reconstruct_aggregates.py:38-75 | `parse` inverts the path-file line format: a line listing the positions and then the rotations of configurations `cs`, fields being words, with or without its newline, parses back to `cs` for `len(cs)` models |
| `ReconstructAggregates.FirstError` | aggregate-reconstruction/reconstruct_aggregates.py:29-33 | the number of lines that are stored: every line before it parses, and the line at it, if any, fails |
| `ReconstructAggregates.FirstErrorAt` | aggregate-reconstruction/reconstruct_aggregates.py:29-33 | the first failing line is the only line that fails with no failure before it |
| `ReconstructAggregates.FirstErrorNone` | aggregate-reconstruction/reconstruct_aggregates.py:29-34 | every line is stored if and only if every line parses |
| `ReconstructAggregates.StepsNext` | aggregate-reconstruction/reconstruct_aggregates.py:33-34 | storing the next line under its step number adds that step and keeps every other entry of the table |
| `ReconstructAggregates.StepsAt` | aggregate-reconstruction/reconstruct_aggregates.py:27-34 | the table of the first `count` lines has exactly the keys `0 .. count-1`, and step i holds the configurations of line i |
| `ReconstructAggregates.StepsAllOk` | aggregate-reconstruction/reconstruct_aggregates.py:27-34 | when every line parses, every line is stored and the table is exactly step i to line i's configurations |
| `ReconstructAggregates.LoadLines` | aggregate-reconstruction/reconstruct_aggregates.py:22-35 | a file whose line i describes `steps[i]` loads completely, with step i equal to `steps[i]` |
| `ReconstructAggregates.PathData.ReadFile` | aggregate-reconstruction/reconstruct_aggregates.py:22-35 | the loop over the lines stores the parse of line i under key i, for every line before the first failing one, on top of the entries already there; it passes if and only if no line fails, and otherwise reports the failing line's error |
| `ReconstructAggregates.PathData.constructor` | aggregate-reconstruction/reconstruct_aggregates.py:17-19 | starting from an empty dictionary, the table holds step i as the parse of line i for every line before the first failing one, and nothing else |
| `ReconstructAggregates.PathData.LoadedConfiguration` | aggregate-reconstruction/reconstruct_aggregates.py:77-79 | on a constructed table, `getConfiguration(s, m)` succeeds if and only if line s was stored and `m < numModels`; it then returns tokens 3m..3m+2 and 3n+3m..3n+3m+2 of line s; a step that was not stored raises `KeyError`, a model past the end `IndexError` |

## Left out

- Reading the file is left out. `ReadFile` and the constructor take the file's lines as a sequence of strings, and each line may keep its newline.
- Everything outside class `PathData` is not part of this model: the test functions, the module-level call and the `3point_planar_align.py` geometry.
- `ReconstructAggregates.PathData.constructor`: when a line fails to parse, Python's `__init__` raises and yields no object. A Dafny constructor cannot fail, so this one returns with the lines before the failing one stored, and `ReadFile` reports the error as `Fail`.
- `ReconstructAggregates.PathData.LoadedConfiguration`: step and model numbers are natural numbers. Python's negative indices, which count from the end of the model list, are not modelled.
- `numModels` is an integer. A non-integer argument, which makes Python's `range` raise `TypeError`, is not modelled.
- The `IndexError` of the model carries the failing index. Python's exception carries only a message.
- `strip` uses Python 2's byte-string whitespace set: space and codes 9 to 13. The wider whitespace set of Unicode strings is not modelled.
- The docstrings describe `(ModelID, x, y, z, a, b, g)` entries and rotations ordered `(a, g, b)`. The code builds `(x, y, z, a, b, g)` with no model number, and the model follows the code.
- The commented-out debugging prints are left out.
