# Love-Is-Food: a verified model of the assistant's logic

Love-Is-Food is a voice cooking assistant. It has three parts:

- A Flask/Socket.IO server (`app.py`).
- A set of skills (`skills.py`).
- A browser page (`static/script.js`).

This project models the rule-bearing logic beneath their glue in Dafny and proves what that logic promises. Network
data, clocks and the language model's reply are inputs to the model.

| file | module | what it models |
|---|---|---|
| `timers.dfy` | `Timers` | The registry of `active_timers` and `timer_counter`, as a class. Covers `set_timer` (registry part), `delete_timer` and `list_timers`. |
| `conversion.dfy` | `Conversion` | `convert_units` over the `to_ml` table with exact reals, and app.py's `unit_map` normalisation. |
| `substitution.dfy` | `Substitution` | `recipe_substitution`: an ordered table searched by substring in either direction. |
| `mealdb.dfy` | `MealDb` | The TheMealDB normalisation of `search_recipes` and `get_recipe_details`: slots 1..20, numbered steps, the cuisine filter, not-found. |
| `ingredient_search.dfy` | `IngredientSearch` | `recipe_by_ingredients`: dedupe per meal id, count, stable sort by count, cut, missed ingredients. |
| `server.dfy` | `Server` | `handle_user_command`: the session class with its 20-entry history and the stored videos, the dispatch chain, the bounds-checked video selection and `word_to_num`. Also `extract_tool_call`'s guard, `handle_get_timers`, and the spoken timer summary. |
| `client.dfy` | `Client` | The page's state as a class: chat history (6 entries), video panel, recipe modal, `activeTimersData`, countdown texts and the interval flag. Covers `processCommand` and the voice-command classifiers, `displayActiveTimers` with its "M:S" parse, the per-second `updateTimerCountdowns`, and the form strings. |
| `dates.dfy` | `Dates` | The ordinal suffix rule of `get_today_date`. |
| `text.dfy` | `Text` | ASCII lower-casing, strip, substring, split/join and number formatting shared by the others. |

Conventions:

- Python dictionaries that keep insertion order (`active_timers`, `recipes_by_id`) are sequences with distinct keys.
- Server time is an integer count of microseconds, the resolution of `datetime`.
- Page time is an integer count of milliseconds, as `Date.getTime()` returns.
- A loop that deletes expired timers from the table works over a snapshot of it. The method that runs it is proved
  against a specification function (`Live`, `Listing`, `Rows`, `AfterTick`), and the properties are lemmas about
  those functions.

## Model

| member | source | states |
|---|---|---|
| Dates.DaySuffix | skills.py:26 | The suffix is one of "st", "nd", "rd", "th", and "th" for 11..13 whatever the last digit |
| Dates.DaySuffixRule | skills.py:26 | For days 1..31: "st" exactly for 1, 21, 31; "nd" exactly for 2, 22; "rd" exactly for 3, 23; "th" otherwise, the teens included |
| Timers.Registry.SetTimer | skills.py:136-153 | The counter goes up by one and becomes the id, which no existing timer holds; only the new timer is appended; an empty name becomes "Timer {id}"; the end time is now plus the duration |
| Timers.Registry.DeleteTimer | skills.py:198-217 | The new table and the answer are those of `Delete` on the old table; the registry invariant (distinct ids, all at most the counter) is kept |
| Timers.FirstNameMatch | skills.py:211-213 | The position found has a case-insensitively equal name and no earlier entry has one; the table length when nothing matches |
| Timers.DeleteByIdRemovesExactlyThatKey | skills.py:205-208 | Deleting a present integer id succeeds and removes that id only: one entry fewer, every other timer kept, ids still distinct |
| Timers.DeleteMissLeavesTable | skills.py:204-217 | An absent id, a name matching nothing, or an identifier that is neither int nor string gives the not-found error and an unchanged table |
| Timers.DeleteByNameRemovesFirstOnly | skills.py:211-215 | Deleting by name removes exactly the first match in insertion order; later timers with the same name remain |
| Timers.Registry.ListTimers | skills.py:219-243 | An empty table answers "No active timers"; otherwise the answer is the listing of the running timers; afterwards the table holds exactly the running timers, in order |
| Timers.ListPass | skills.py:229-241 | The loop's table is the running timers and its list is their listing, deleting each expired entry at the position it has reached |
| Timers.LiveMembers | skills.py:230-241 | A timer survives the purge if and only if it was in the table and has time left |
| Timers.LiveIdempotent | skills.py:229-241 | Purging twice at the same instant removes nothing more |
| Timers.ListingReportsRunningTimers | skills.py:230-238 | Every listed entry is a running timer of the table, with its own id and name and the "Xm Ys" text of its remaining time |
| Timers.ShortForm | skills.py:232-236 | The "Xm Ys" text starts with the whole minutes left and "m ", and has no colon |
| Timers.MinutesAndSeconds | skills.py:232-233 | For a positive span, minutes are non-negative, seconds are in 0..59, and minutes·60 + seconds is the whole seconds left |
| Timers.ListTimersAsWritten | skills.py:229-241 | As written, the loop raises if and only if some timer in the table has expired |
| Timers.ListTimersAsWrittenCrashesOnExpiredTimer | skills.py:229-241 | A table holding one expired timer ends with that timer removed and the call raising, instead of answering with an empty list |
| Conversion.Factor | skills.py:251-275 | Every unit the table knows has a positive size, so no conversion divides by zero |
| Conversion.ConvertUnits | skills.py:277-294 | Success if and only if both cleaned names are in the table; on success result·f[to] = amount·f[from], with the amount and unit names echoed; otherwise the fixed message listing the available units |
| Conversion.CleanUnit | skills.py:277-278 | The cleaned name has the input's length, no capital letter and no space |
| Conversion.CleanUnitSpelling | skills.py:277-278 | Case and spaces do not matter: "Fl Oz" and "fl oz" clean to "fl_oz" |
| Conversion.ConvertSameUnit | skills.py:285-286 | Converting between two spellings of one table entry gives the amount back exactly |
| Conversion.ConvertRoundTrip | skills.py:285-286 | Converting A to B and the result back to A gives the amount back exactly |
| Conversion.ConvertCompose | skills.py:285-286 | Converting A to B and then B to C equals converting A to C |
| Conversion.NormalizeUnit | app.py:668-669 | The normalised name is empty if and only if the unit given is empty; a lower-cased spelling the map knows gives its name, and any other passes through lower-cased |
| Conversion.UnitAliasReachesTable | app.py:650-666 | Every name the map gives is a key of the conversion table once cleaned, except "gallon" |
| Conversion.NormalizePlurals | app.py:650-669 | "Cups" becomes "cup", "Grams" becomes "gram", and "fl oz" becomes "fl_oz" |
| Conversion.OuncesMeanFluidOunces | app.py:657 | "ounces" and "Ounce" become the fluid ounce (29.574 ml), not the weight ounce (28.35 g) of the table |
| Conversion.GallonsAlwaysUnsupported | app.py:656 | "gallon" or "gallons" on either side of a request always ends in the unsupported-unit error |
| Substitution.MatchingIndices | skills.py:351-354 | Matching positions are collected in table order, every match and only matches |
| Substitution.SubstitutionIn | skills.py:348-367 | Not found if and only if no key matches the cleaned input in either direction, with the fixed error; otherwise the first matching entry, its key title-cased, and the quantity or "as needed" |
| Substitution.Search | skills.py:348-367 | The match loop and the pick of the first match compute `SubstitutionIn` |
| Substitution.RecipeSubstitution | skills.py:296-367 | recipe_substitution computes `SubstitutionIn` over the nine-entry table |
| Substitution.FirstEntryWins | skills.py:356-358 | When the first key matches, its entry is reported |
| Substitution.BlankIngredientMatchesButter | skills.py:348-358 | An empty or blank ingredient matches every key, so it gets butter's substitutes |
| Substitution.MentioningAKeyFinds | skills.py:353-356 | An input that contains any key finds a substitute |
| MealDb.Slot | skills.py:403-411 | A reported slot has a non-blank stripped name, a stripped measure, an empty unit, and `original` equal to the measure and name joined |
| MealDb.OriginalIsStrippedJoin | skills.py:410 | The `original` closed form equals `f"{measure} {name}".strip()` for stripped parts |
| MealDb.SlotIngredientsWellFormed | skills.py:402-411 | Every extracted ingredient is well formed |
| MealDb.Ingredients | skills.py:402 | At most 20 ingredients are extracted |
| MealDb.ExtractIngredients | skills.py:401-411 | The slot loop yields the ingredients of slots 1..20 in slot order |
| MealDb.SlotIngredientsFrame | skills.py:402-405 | An ingredient field beyond slot n does not change the first n slots' ingredients |
| MealDb.SlotsBeyondTwentyIgnored | skills.py:402 | An ingredient in slot 21 or later is never reported |
| MealDb.StepsOf | skills.py:419-427 | Steps are stripped lines longer than ten characters, numbered 1..n without gaps, at most one per line |
| MealDb.InstructionSteps | skills.py:414-418 | No step contains a line break, and empty instructions give no steps |
| MealDb.ParseSteps | skills.py:414-427 | The line loop with its running step number computes `InstructionSteps` |
| MealDb.SliceTo | skills.py:399 | `s[:n]` is a prefix of s, with Python's length rule for non-negative and negative n |
| MealDb.CuisineKeeps | skills.py:453-454 | No cuisine keeps every meal; with one, a null area raises, and otherwise the meal is kept if and only if its lower-cased area contains the lower-cased cuisine |
| MealDb.KeptMeals | skills.py:452-454 | The filter raises if and only if some meal has a null area; otherwise it keeps exactly the meals whose area contains the cuisine |
| MealDb.KeptMealsSingle | skills.py:452-454 | Filtering one meal raises, keeps it or drops it, as that meal's test decides |
| MealDb.KeptMealsAppend | skills.py:452-454 | Filtering a + b raises if either part raises, and otherwise keeps a's survivors followed by b's |
| MealDb.BuildRecipe | skills.py:400-450 | One meal's recipe: its id, title (default "Unknown Recipe"), area, ingredients and steps |
| MealDb.SearchRecipes | skills.py:398-456 | The meal loop computes `SearchOf`: the cuisine filter over `meals[:max_results]`, or the failure message |
| MealDb.NoCuisineReportsAll | skills.py:398-456 | With no cuisine, recipe k is meal k normalised, and every meal of the window is reported |
| MealDb.SearchBounded | skills.py:399 | A search never reports more than max_results recipes |
| MealDb.SearchMatchesCuisine | skills.py:453-454 | Every reported recipe's area contains the requested cuisine, ignoring case |
| MealDb.NegativeMaxDropsFromEnd | skills.py:399 | max_results = -1 drops the last meal, as Python slicing does |
| MealDb.RecipeDetails | skills.py:485-533 | Not found if and only if there are no meals or the first is empty, with the fixed message; otherwise the first meal's ingredients, steps, title and id |
| IngredientSearch.IngredientList | skills.py:549 | The comma split gives at least one entry, each stripped and free of commas |
| IngredientSearch.Aggregate | skills.py:553-580 | The ingredient loop computes `AbsorbAll`: blank entries are skipped and the first failed request ends the search |
| IngredientSearch.AddResults | skills.py:563-580 | The meal loop computes `AbsorbMeals` |
| IngredientSearch.AbsorbAllValid | skills.py:563-580 | Aggregation keeps ids distinct; each count equals the number of distinct ingredients in the entry's matched list; every matched ingredient is non-blank and from the list |
| IngredientSearch.AbsorbAllMatches | skills.py:563-580 | An ingredient is in an entry's matched list if and only if it is non-blank, listed, and its fetch returned a meal with that id; every entry matched one; every meal any such fetch returned has an entry |
| IngredientSearch.AbsorbAllFails | skills.py:553-559 | Aggregation fails if and only if some non-blank ingredient's request failed |
| IngredientSearch.SortByCount | skills.py:584 | The sort is a permutation of its input |
| IngredientSearch.SortByCountSorted | skills.py:584 | The ranking is sorted by count, highest first |
| IngredientSearch.SortByCountStable | skills.py:584 | The sort is stable: for each count, the entries keep their first-seen order |
| IngredientSearch.Missed | skills.py:588 | An ingredient is missed if and only if it is in the list and not matched |
| IngredientSearch.AddMissed | skills.py:587-591 | The reports loop adds the missed ingredients to each entry of the cut ranking |
| IngredientSearch.RecipeByIngredients | skills.py:540-601 | The whole operation computes `ByIngredientsOf` |
| IngredientSearch.ByIngredientsFails | skills.py:545-605 | The result is the fixed failure if and only if a non-blank ingredient's request failed |
| IngredientSearch.ByIngredientsReport | skills.py:563-593 | A success has at most max_results recipes. Ids are distinct and counts run high to low. Each count is the number of distinct ingredients in its matched list, all non-blank and from the list. The missed ingredients are the list minus the matched ones |
| IngredientSearch.ByIngredientsMatched | skills.py:553-593 | In a success, an ingredient is among a recipe's used ingredients if and only if it is non-blank, listed, and its fetch returned a meal with the recipe's id; no recipe has an empty used list |
| IngredientSearch.ByIngredientsRanking | skills.py:563-593 | Every meal a non-blank listed ingredient's fetch returned is ranked; recipe k is ranked entry k with its used ingredients; every ranked meal cut off has a count no greater than any reported one |
| Server.ExtractToolCall | app.py:59-60 | An empty reply never yields a tool call |
| Server.WordToNum | app.py:157-161 | Every word maps into 1..10 |
| Server.WordToNumOfNumberWord | app.py:157-161 | "one".."ten" map to 1..10 |
| Server.WordToNumDefault | app.py:161 | Any other word maps to 1 |
| Server.Dispatch | app.py:511-789 | Each named tool reaches its own branch, and only that name does; the unknown branch is taken exactly for names outside available_skills |
| Server.SecondPlayBranchUnreachable | app.py:524-704 | The second play_youtube_video branch is never taken; the first one always is |
| Server.DispatchFallbacks | app.py:779-789 | The generic skill branch is taken exactly for the three skills without their own branch; the unknown branch exactly for names outside available_skills |
| Server.Select | app.py:526-527 | A video is selected if and only if the number is int-like and in 1..len(videos); it is then videos[n-1] |
| Server.NothingToSelect | app.py:526-532 | Without stored results nothing is selected |
| Server.TrueSelectsFirst | app.py:527 | A JSON `true` passes the int test and plays the first video |
| Server.PlayedVideoInRange | app.py:524-529 | A played video is the stored result at the requested 1-based position |
| Server.ConversationalReplyPassesThrough | app.py:794-797 | A reply without a tool call is spoken unchanged; nothing is played; the stored results are kept |
| Server.EmptyReplyIsConversational | app.py:500 | An empty model reply is spoken as it is and plays nothing |
| Server.UnknownToolReply | app.py:788-789 | An unknown tool name gets the fixed "not sure how to help" reply |
| Server.ExchangeKeepsPairs | app.py:800-807 | After an exchange the history keeps whole user/assistant pairs, at most 20 entries. It ends with this command and its reply, and the newest earlier entries stay in order |
| Server.Sessions.Connect | app.py:412-418 | A new session starts with an empty history and no stored videos; other sessions are unchanged |
| Server.Sessions.Open | app.py:484-488 | A session is created if missing; existing state is kept |
| Server.Sessions.Respond | app.py:503-797 | The reply, the played video and the stored videos follow the dispatch chain |
| Server.Sessions.Remember | app.py:800-807 | The two entries are appended and the history trimmed to the last 20 |
| Server.Sessions.HandleUserCommand | app.py:480-807 | One command under the sessions invariant: reply, played video, stored videos and the new session history; other sessions are unchanged |
| Server.RowsPass | app.py:434-447 | The snapshot loop's table is the running timers, and its rows are theirs |
| Server.HandleGetTimers | app.py:427-450 | The registry keeps exactly the running timers, the invariant holds, and one row is sent per running timer in order |
| Server.RowOf | app.py:435-443 | A row copies the timer's id, name and duration; its remaining text is the "MM:SS" clock of the whole minutes and seconds left, seconds below 60 |
| Server.RowsReportRemaining | app.py:435-443 | Each row is a running timer of the table, with its id and name and the zero-padded "MM:SS" of its whole minutes and seconds left |
| Server.Names | app.py:639 | The names are taken one per listed timer, in order |
| Server.TimersSpeech | app.py:637-640 | The summary is "No active timers" exactly when the listing is empty; otherwise it starts "You have N active" with N the number of timers |
| Server.TimersSpeechNamesAll | app.py:637-640 | The spoken summary names every listed timer |
| Client.ClassifyVideo | static/script.js:160-223 | The family chosen is the first, in the handler's order, with a phrase in the lower-cased command; none exactly when no phrase of any family occurs |
| Client.PlayVideoNumberStaysLocal | static/script.js:1557-1558 | Every "Play video N" the page suggests is caught by the local play handler and never reaches the server |
| Client.Louder | static/script.js:209-212 | Volume up is min(100, v+10) |
| Client.Quieter | static/script.js:215-218 | Volume down is max(0, v-10) |
| Client.VolumeStaysInRange | static/script.js:209-219 | No voice command takes the volume out of 0..100 |
| Client.VideoEffect | static/script.js:166-219 | Play, pause and stop set the playback of an existing player; stop also hides the panel and resets the caption; only the two fullscreen families touch the modal, which opens only over a loaded video, and closing an open one pauses the player; the player and its video are never created or replaced |
| Client.OnlyVolumeCommandsChangeVolume | static/script.js:166-219 | Only the volume families change the volume, each by at most ten |
| Client.NoPlayerNoEffect | static/script.js:166-219 | Without a player, every family but closing fullscreen has no effect |
| Client.ClassifyRecipeAsWritten | static/script.js:390-427 | As written, the show family is chosen whenever a show phrase occurs; the close family only when no show phrase occurs |
| Client.CloseFullRecipeOpensAsWritten | static/script.js:394-420 | As written, "close full recipe" opens a recipe instead of closing it |
| Client.ClassifyRecipe | static/script.js:390-433 | Corrected order: a close phrase closes; the show family applies only to commands without a close phrase |
| Client.ClassifyRecipeCorrects | static/script.js:394-420 | The correction agrees with the code on every command without a close phrase, and closes on "close full recipe" |
| Client.FirstCard | static/script.js:396-412 | The first card naming a recipe id, and none exactly when no card names one |
| Client.FirstRecipeId | static/script.js:396-412 | The card loop finds `FirstCard` |
| Client.ReactToRecipe | static/script.js:390-433 | Show opens the first card's recipe, or adds the right notice when there is none. Close is handled only if a modal is open, and leaves none open. Anything else is not handled |
| Client.Page.HandleVideoVoiceCommand | static/script.js:160-223 | Handled if and only if some family matches, with or without a player; the panel changes by that family's effect |
| Client.Page.HandleRecipeVoiceCommand | static/script.js:390-433 | Handled flag, open modal and chat notices as `ReactToRecipe` gives them, with the corrected order |
| Client.Page.UpdateHistory | static/script.js:1093 | The entry is appended, the last six entries are kept, and it is the last |
| Client.Page.SendToServer | static/script.js:556-563 | The user bubble and an empty assistant bubble are added; the history gains the command; the command goes out with that history and the session id |
| Client.Page.ProcessNonVideo | static/script.js:544-563 | A recipe command is handled locally and leaves the history alone; else the command goes to the server |
| Client.Page.ProcessCommand | static/script.js:538-564 | Video commands first (nothing sent, nothing else changes), then recipe commands with the corrected recipe order, then the server; only the server path touches the history |
| Client.FirstClockIsLeftmost | static/script.js:1192 | The parse finds the leftmost "digits:digits", and nothing when there is none |
| Client.ParseRemaining | static/script.js:1190-1197 | The offset is a whole number of seconds in milliseconds, and 0 for a text without a colon |
| Client.ClockParses | static/script.js:1192-1197 | A zero-padded "MM:SS" reads back as (m·60+s)·1000 ms |
| Client.ShortFormReadsFinished | static/script.js:1192-1197 | list_timers' "Xm Ys" text has no match, so the offset is 0 and the timer reads finished on the next tick |
| Client.ServerRowMeansWholeSeconds | static/script.js:1192-1197 | A handle_get_timers row counts down from the server's remaining time cut to whole seconds |
| Client.Loaded | static/script.js:1188-1204 | Every activeTimersData entry is stored under its own id |
| Client.LoadedRows | static/script.js:1188-1213 | With distinct ids, each row becomes the entry of its id, with end time the display time plus its parsed offset, and its element shows its remaining text |
| Client.LoadedKeys | static/script.js:1188-1213 | The tracked timers and the countdown elements have the same ids, all taken from the rows |
| Client.Page.StartTimerUpdates | static/script.js:1237-1247 | The interval is set |
| Client.Page.StopTimerUpdates | static/script.js:1249-1254 | The interval is cleared |
| Client.Page.DisplayActiveTimers | static/script.js:1174-1235 | The rows replace the tracked timers and the countdown texts; the interval runs exactly when there are rows |
| Client.Face | static/script.js:1274-1277 | With less than a second left the element shows "00:00" |
| Client.FaceClock | static/script.js:1274-1277 | With time left the element shows a zero-padded clock of whole minutes and seconds, seconds below 60, making up the whole seconds left |
| Client.FaceRoundTrip | static/script.js:1274-1277 | The countdown text reads back as the remaining time cut to whole seconds, and as 0 once it has run out |
| Client.TickStepTimers | static/script.js:1262-1271 | A visited timer with an element and no time left is deleted; otherwise the table is unchanged |
| Client.TickStepFaces | static/script.js:1262-1277 | A visited timer with an element shows "00:00" or its mm:ss; without an element nothing changes |
| Client.TickStepRunning | static/script.js:1272-1273 | One more visited timer sets hasActiveTimers exactly when it has an element and time left |
| Client.Page.TickTimer | static/script.js:1259-1279 | One timer's tick moves the tracked timers and texts from the state with `visited` done to the state with this id done too, and reports whether it is still running |
| Client.Page.UpdateTimerCountdowns | static/script.js:1256-1286 | One tick yields `AfterTick` and `FacesAfterTick`; the interval survives exactly when some timer with an element still has time left |
| Client.TickSettles | static/script.js:1256-1286 | A second tick at the same instant deletes nothing more, and the interval is kept exactly when a displayed timer remains |
| Client.TimerFormReachesServer | static/script.js:734-736 | The timer form's command, for a name and duration without the letters l, v, k, p, is caught by neither the video nor the recipe voice handler (as written or corrected), so it goes to the server |
| Client.RecipeFormParts | static/script.js:787-789 | The recipe form command starts with "Find recipes for q"; with no diet and no cuisine it is just that; a diet follows the query as " that are diet"; a cuisine ends it as " in cuisine style"; with both it is the whole sentence, diet before cuisine |

## Left out

- The background timer thread (skills.py:156-191), which sleeps and emits from another thread. It is concurrency and
  is not modelled; expiry is seen only through the `now` parameter.
- Clocks and date formatting (`datetime.now`, `strftime`, `get_current_time`, the `%A, %B ... %Y` date text). Times
  are parameters; of `get_today_date`, only the suffix rule is modelled.
- All network and foreign calls: TheMealDB, YouTube, Wikipedia, the language model, text-to-speech and Socket.IO
  emits. Their results are inputs: the `meals` array, the per-ingredient filter results, the videos found, the model's
  raw reply, and the tool call found in it.
- The regex cascade of `extract_tool_call` (app.py:62-319). It is best-effort text scraping and is not modelled; its
  outcome is the input `parsed`. Only the empty-reply guard is modelled, together with the number words it uses.
- `get_ai_response_text` and the reply texts of the timer, conversion, substitution and recipe tool branches: their
  text is the input `otherReply`. The generic-skill branch's `str(list(result.values())[0])` is also left out.
- `Server.Sessions.HandleUserCommand` does not call the skills it dispatches to. The registry and the other skills are
  modelled in their own modules, and the server model only records which branch is taken.
- The serialisation in the timer branches that re-reads `active_timers` (app.py:614-636) is left out. Also left out:
  the `timer_set`/`timer_deleted` payloads and the default `duration_minutes` of 5.
- The tool branches' `try`/`except` exception paths other than the ones that decide an outcome. The modelled ones are
  the failed fetch in `recipe_by_ingredients` and the `None.lower()` on a null area in `search_recipes`. The
  `RuntimeError` of the as-written `list_timers` is modelled in `Timers` only (see the next line). Not modelled: the `get_timers` handler's fallback to an empty list,
  a timer row without a `remaining` field, and a `meals` value that is not a list.
- Server.Sessions.HandleUserCommand: the server model uses the corrected, snapshot `list_timers`, so it always records
  the exchange. As written, the `set_timer`, `delete_timer` and `list_timers` branches call `list_timers()` with no
  `try` (app.py:560, 595, 615). Once any timer has ended, its `RuntimeError` escapes `handle_user_command`: no reply is
  sent and the history update (app.py:802-807) is skipped. This abort is not modelled.
- Timers.NotFoundText: a JSON bool that is not a key is shown as "1" or "0", where Python's f-string writes "True" or
  "False". `ById` keeps only the integer value.
- Float formatting and rounding: the `:.2f` text and `round(result, 2)` of `convert_units`. Amounts and results are
  exact reals.
- Text handling is ASCII: `.lower()`, `.title()`, `.strip()` and `toLowerCase()` act on ASCII letters and ASCII
  whitespace only, with no Unicode case mapping or Unicode whitespace.
- `search_recipes`' fixed fields (image, source URL, summary, nutrition, default times, dish types, cuisines). Only
  id, title, area, ingredients and steps are kept.
- The page's other voice handler, `recognition.onresult` (static/script.js:507-535). It tests its own "pause",
  "resume" and "close player" words before `processCommand` whenever a player exists. Its effects are DOM-only, and
  `Client.Page.ProcessCommand` starts from `processCommand`.
- `detectAndAddRecipe` and the markdown and speech cleanup regexes (static/script.js:227-313, 648-653, 1006-1016).
  They are heuristic text scraping.
- `showFullRecipe`'s fetch and `displayFullRecipeModal`. Opening a recipe is modelled as the recipe modal holding its
  id.
- The DOM beyond the state named above: element styles, the `timer-finished` class, the `setTimeout` removal of
  modals, the YouTube player API (modelled as a playback state, a volume and a video id), microphones and audio.
  `showVideoFullscreen` is modelled only by its guards: a player with a loaded video.
- `timerUpdateInterval` is modelled as a flag. Replacing a running interval with a new one is the same flag set again.
- The order in which `Object.values(activeTimersData)` visits timers. The tick visits them in an arbitrary order,
  and the proved results hold for every order.
- Concurrency between Socket.IO handlers. The server runs them on threads (`async_mode='threading'`, app.py:25-30), so
  commands can interleave on `active_timers` and `user_sessions`; each handler is modelled as one atomic step.
- Client.TimerFormReachesServer: proved only for a name and a duration without the letters l, v, k and p. Those
  letters occur in every phrase of the local video and recipe handlers. A name such as "full recipe" is caught by the
  recipe handler and never reaches the server.
- `parseInt` on digit runs too long for a double, which the model reads as exact naturals.
- The page's `deleteTimer` (static/script.js:1542-1553), which sends a command and dims an element. The command goes
  through `Client.Page.ProcessCommand`; the immediate local delete from `activeTimersData` is not modelled.
- The conversion, substitution and recipe-result display functions and the other manual forms (conversion,
  substitution, by-ingredients). They only render or build strings, like the two forms that are modelled.
- `Timers.Registry.ListTimers` and `Server.HandleGetTimers` compute the purged table in a local copy of the snapshot
  and assign it once (`ListPass`, `RowsPass`). The source deletes from the live dictionary step by step. With no
  concurrency the end state is the same.
- Timers.Registry.SetTimer: `duration_minutes` is an unbounded integer. The model does not capture `timedelta`'s
  overflow for an enormous duration, or the float minutes an LLM could pass.

## Findings

| source | as written | input that shows it | evidently intended | confidence | as-written member | corrected member |
|---|---|---|---|---|---|---|
| skills.py:229-241 | `list_timers` deletes expired entries from `active_timers` while iterating `active_timers.items()`. CPython then raises `RuntimeError` (dictionary changed size during iteration) on the iterator's next step, even after the last entry. | a table holding one timer whose end time has passed | iterate a snapshot, as `handle_get_timers` does at app.py:434, so that expired timers are removed and the running ones listed | not executed | Timers.ListTimersAsWrittenCrashesOnExpiredTimer | Timers.Registry.ListTimers |
| static/script.js:394-420 | `handleRecipeVoiceCommand` tests the show phrases first, and "full recipe" is one of them, so "close full recipe" opens a recipe | the command "close full recipe" | a close phrase closes the recipe modal | not executed | Client.CloseFullRecipeOpensAsWritten | Client.ClassifyRecipeCorrects |
