# Dafny model of python-testing-ci's utilities

This project models the three small pieces of logic in the repository:

- **Pairwise list arithmetic** (`code/arrays/arrays.py`). `add_arrays`, `subtract_arrays` and `divide_arrays` check that the two lists have the same length. They then build a new list from the sum, difference or floor quotient of each pair. Module `Arrays`.
- **Word counting** (`code/books/books.py`). `word_count(text, word="")` splits `text` with Python's argument-less `str.split()`. It returns the number of tokens, or, for a non-empty `word`, the number of tokens exactly equal to `word`. Module `Books`.
- **A fair n-sided die** (`code/dice/dice.py`). `Die(n=6)` validates its side count and starts with no last roll. `roll()` draws a face in `[1, n]` and records it. Module `Dice`.

Module `Outcomes` holds what they share. An exception is a `Failure` value carrying the Python exception and its message (`ValueError`, `TypeError`, `ZeroDivisionError`). A normal return is a `Success`. Python's `None` is `Option.None`.

Modelling choices:

- Elements are unbounded `int`s, as Python's are.
- `//` is modelled by `Arrays.FloorDiv`, which rounds towards negative infinity. Dafny's own `/` is Euclidean, so `7 // -2` is `-4` in Python and in the model, while `7 / -2` is `-3` in Dafny.
- `divide_arrays` checks lengths first. It then fails with `ZeroDivisionError` if any divisor is zero. Python raises that from the first `//` by zero, and the exception discards the list built so far, so no partial result exists.
- Whitespace for `str.split()` is the fixed set of characters `str.isspace()` accepts: general category Zs, or bidirectional class WS, B or S. This is U+0009–U+000D, U+001C–U+0020, U+0085, U+00A0, U+1680, U+2000–U+200A, U+2028, U+2029, U+202F, U+205F and U+3000.
- The die is an immutable state value `Die(sides, lastRoll)` with a `Valid()` invariant. `roll()` becomes a transition that returns the new state. The random draw is an arbitrary choice of a face (`v :| 1 <= v <= sides`). For reasoning about sequences of rolls, the pure transition `RollWith` takes the drawn face as a parameter.
- The constructor's run-time check `type(n) is int` is modelled by the argument type `SidesArg`. `IntArg(n)` is an `int`; `OtherArg` is any other object, including `bool`, which that check also rejects.

## Model

| member | source | states |
|---|---|---|
| Arrays.FloorDiv | code/arrays/arrays.py:85 | `x_ // y_` is the floor quotient: for a positive divisor `b*q <= a < b*q + b`, for a negative one `b*q + b < a <= b*q` |
| Arrays.FloorDivUnique | code/arrays/arrays.py:85 | any integer with those floor bounds equals `FloorDiv`, so the bounds define Python's `//` completely |
| Arrays.FloorDivIsNotEuclidean | code/arrays/arrays.py:85 | `7 // -2 == -4`, while Dafny's Euclidean `7 / -2 == -3` |
| Arrays.Pairwise | code/arrays/arrays.py:24-28 | the zip-and-append loop yields a list as long as the inputs whose element i is the operation applied to `x[i]` and `y[i]` |
| Arrays.AddArrays | code/arrays/arrays.py:21-28 | fails with `ValueError("Both lists must have the same length.")` exactly when the lengths differ; otherwise a same-length list with element i equal to `x[i] + y[i]` |
| Arrays.SubtractArrays | code/arrays/arrays.py:47-54 | fails with the length `ValueError` exactly when the lengths differ; otherwise a same-length list with element i equal to `x[i] - y[i]` |
| Arrays.DivideArrays | code/arrays/arrays.py:80-87 | fails exactly on unequal lengths (`ValueError`, checked first) or a zero divisor (`ZeroDivisionError`); otherwise a same-length list whose element i satisfies the floor bounds of `x[i] / y[i]` |
| Arrays.DivideArraysIsFloor | code/arrays/arrays.py:83-87 | on equal lengths with no zero divisor, division succeeds and element i is `FloorDiv(x[i], y[i])` |
| Arrays.AddExample | code/arrays/arrays.py:18-19 | `add_arrays([1, 4, 5], [4, 3, 5]) == [5, 7, 10]` |
| Arrays.SubtractExample | code/arrays/arrays.py:44-45 | `subtract_arrays([1, 4, 5], [4, 3, 5]) == [-3, 1, 0]` |
| Arrays.DivideExample | code/arrays/arrays.py:76-77 | `divide_arrays([3, 12, -25], [3, -4, 5]) == [1, -3, -5]` |
| Arrays.AddUndoesSubtract | code/arrays/arrays.py:47-54 | for equal lengths, adding `y` back to `subtract_arrays(x, y)` gives exactly `x` |
| Arrays.SubtractUndoesAdd | code/arrays/arrays.py:21-28 | for equal lengths, subtracting `y` from `add_arrays(x, y)` gives exactly `x` |
| Arrays.AddArraysCommutes | code/arrays/arrays.py:21-28 | `add_arrays(x, y)` and `add_arrays(y, x)` give the same outcome, length error included |
| Books.WordEnd | code/books/books.py:15 | the token at the front of the text runs up to, and not including, the first whitespace character |
| Books.Split | code/books/books.py:15 | every token `text.split()` produces is non-empty and contains no whitespace |
| Books.SplitWordThen | code/books/books.py:15 | a word followed by nothing or by whitespace is split off whole as the first token |
| Books.SplitSkipsSpace | code/books/books.py:15 | leading whitespace of any length does not change the tokens |
| Books.SplitJoin | code/books/books.py:15 | splitting words joined by single spaces gives back exactly those words |
| Books.ConcatSplit | code/books/books.py:15 | the tokens written back to back are the text with all its whitespace removed |
| Books.SplitEmptyIffBlank | code/books/books.py:20 | the text has no tokens if and only if it is empty or all whitespace |
| Books.CountMatches | code/books/books.py:14-18 | the counting loop's result is the number of occurrences of `word` in the token multiset |
| Books.WordCount | code/books/books.py:13-20 | with an empty `word`, the number of tokens; with a non-empty `word`, the multiplicity of `word` among the tokens |
| Books.CountAtMostTotal | code/books/books.py:13-20 | the count of any word never exceeds the total token count |
| Books.BlankTextCountsZero | code/books/books.py:13-20 | empty or all-whitespace text yields 0 for every `word` |
| Books.CountPositiveIffToken | code/books/books.py:14-18 | for a non-empty `word`, the count is positive if and only if some token equals `word` |
| Books.SpacedWordCountsZero | code/books/books.py:15-16 | a `word` containing whitespace is never counted, since no token contains any |
| Books.CountOfJoin | code/books/books.py:13-20 | on words joined by spaces, the total is the number of words and the count of a word is its multiplicity among them |
| Books.ExactMatchOnly | code/books/books.py:16 | in "cats and a cat" the word "cat" counts once: "cats" does not match it |
| Dice.NewDie | code/dice/dice.py:15-38 | construction succeeds exactly for an `int` `n >= 0`; otherwise `TypeError` (non-`int`, checked first) or `ValueError` (negative), with the source's messages; a new die has `n` sides, no last roll, and is valid |
| Dice.DefaultDie | code/dice/dice.py:15 | `Die()` has six sides and no last roll |
| Dice.RollWith | code/dice/dice.py:60-61 | recording a face keeps the die valid, keeps its side count, and makes that face the last roll |
| Dice.Roll | code/dice/dice.py:52-64 | on a die with at least one side, returns a face `v` with `1 <= v <= sides`; afterwards the last roll is `v`, the side count is unchanged and the die is valid |
| Dice.RollsKeepState | code/dice/dice.py:40-64 | after any number of rolls the die is valid, `sides()` is unchanged, and `lastRoll()` is the most recent face, or the earlier value if there were no rolls |
| Dice.SidesFixedFromConstruction | code/dice/dice.py:35-50 | a die built with `n` reports `n` sides after any number of rolls, and no last roll before the first |

## Left out

- `multiply_arrays` (code/arrays/arrays.py:57-60) is an unimplemented stub that returns `None` whatever it is given, so there is no behaviour to model.
- Non-`int` list elements: Python would also add or divide floats, and floating point is not modelled.
- The `seed` argument and the reseeding of the process-wide `random` module (code/dice/dice.py:28-32): foreign library state. The draw is an arbitrary face instead. Uniformity and reproducibility under a seed are statistical properties of the generator and are not stated.
- `roll()` on a zero-sided die: `random.randint(1, 0)` raises inside the `random` module, whose message depends on the Python version. `Dice.Roll` requires at least one side instead of modelling that error. A zero-sided die can still be constructed, as in the source.
- Mutation in place: `Die` is a value, and each roll returns the next state instead of updating the object. `sides()` and `lastRoll()` are the fields `sides` and `lastRoll`.
- The message of the `ZeroDivisionError` raised by `//` comes from the Python runtime and is not modelled; only the exception kind is.
