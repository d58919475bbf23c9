# OpenAir fan entity, modelled in Dafny

This project models the fan entity of the Vakio OpenAir integration for a
home-automation host. The entity mirrors a ventilation unit that talks over a
message bus. Every topic has the form `prefix/<endpoint>`. The entity keeps
three fields:

- `percentage`: the current speed percentage, or unknown;
- `presetMode`: one of "Gate 1" to "Gate 4" or "Super Auto", or unset;
- `state`: the power state.

Four handlers update these fields from incoming messages (state, speed, gate,
work mode). Four host commands (set percentage, set preset, turn on, turn off)
read the fields and publish an ordered sequence of messages.

## Files

- `wrappers.dfy`: `Option`, standing for Python's `None` and for a failed parse.
- `python.dfy` (module `Python`): the Python built-ins the entity relies on.
  These are `int(s)` on a string (`ParseInt`), `s.lower()` (`Lower`),
  list subscription with a negative index (`At`) and `list.index` (`Index`).
  `ParseInt` comes with its partner `str(n)` (`Show`) and a round-trip lemma.
- `percentage.dfy` (module `PercentageUtil`): the host's two helpers that map
  between an ordered speed list and a percentage. Their round trip is proved
  for lists of at most 100 distinct items.
- `fan.dfy` (module `VakioFan`): the constants, the preset tables, and class
  `OpenAirFan`. The class has the three fields plus an `outbox` that every
  publication is appended to. Each command and handler is a method whose
  `ensures` gives the whole new state and the exact messages appended, in
  order. `Valid()` is the class invariant: the constants are well formed and
  the preset is unset or one of the five offered modes. Every method keeps it.

## Behaviour the model makes explicit

- The constants module of the integration is not part of this model.
  `Constants` carries its values as parameters. `Constants.Valid` assumes a
  nonempty speed list without repetitions that contains the first speed, and
  four gate values. Tokens are `Value`s (an integer or a string). Python's
  `==` between an integer and a string is false, so comparing the percentage
  with the zero-speed token (fan.py:226) stays exact without fixing that
  token's type.
- `SetPercentage` does nothing when the current work mode is super auto. The
  source computes that work mode from the preset. So the command is also
  blocked if the manual and super-auto tokens were ever equal.
- A nonzero percentage publishes three messages, in order: power on, the
  first speed, then the named speed.
- Selecting "Super Auto" publishes the super-auto work mode only when the
  current preset is already "Super Auto". From a gate preset it publishes
  nothing, and it never changes the preset.
- A speed message with integer `k`, for a list of `n` speeds, behaves as follows:
  - `k` above `n` clears a known percentage, and sets 100 when no percentage is known (the `IndexError` path);
  - `k` from `1 - n` to `-1` indexes the list from its end, as Python does;
  - any lower `k` sets 100.
- `state` is `None` until first assigned, because the entity's constructor never sets it.

## Model

| member | source | states |
|---|---|---|
| `VakioFan.OpenAirFan.constructor` | custom_components/vakio_openair/fan.py:106-129 | a new fan has no percentage, no preset, no power state and an empty outbox, and keeps the invariant |
| `VakioFan.OpenAirFan.Publish` | custom_components/vakio_openair/fan.py:156-158 | publishing appends exactly one message on `prefix/endpoint` and changes nothing else |
| `VakioFan.OpenAirFan.SetPercentage` | custom_components/vakio_openair/fan.py:180-209 | in super-auto work mode nothing is published and no field changes; otherwise the percentage becomes the requested one, and 0 publishes only the zero speed while any other value publishes power on, the first speed, then the named speed for the percentage, in that order, and sets the power state on |
| `VakioFan.OpenAirFan.SetPresetMode` | custom_components/vakio_openair/fan.py:211-245 | a mode outside a nonempty offered list fails and changes nothing; a gate preset publishes manual work mode only if super auto was current, the zero speed only if the gate is not 4 and the percentage differs from the zero-speed token, then the gate's value, and becomes the preset; any other mode republishes super auto only if it is current and leaves the preset as it was |
| `VakioFan.OpenAirFan.TurnOn` | custom_components/vakio_openair/fan.py:247-266 | power on is published first, then one speed (the first speed when no percentage is given); the power state becomes on and the percentage and preset do not change |
| `VakioFan.OpenAirFan.TurnOff` | custom_components/vakio_openair/fan.py:268-274 | power off is the only message; the power state becomes off and the percentage 0 |
| `VakioFan.OpenAirFan.HandleStateMessage` | custom_components/vakio_openair/fan.py:276-288 | the power state is on exactly when the lower-cased payload is "on"; the percentage becomes that of the first speed when on and 0 otherwise; nothing is published |
| `VakioFan.OpenAirFan.HandleSpeedMessage` | custom_components/vakio_openair/fan.py:290-320 | a payload that is not an integer changes nothing; an integer payload sets the percentage given by `SpeedPercentage`, so 0 gives 0, `k` in `1..n` gives `k * 100 // n`, negative `k` indexes from the end, and out-of-range speeds give unknown or 100 |
| `VakioFan.OpenAirFan.HandleGateMessage` | custom_components/vakio_openair/fan.py:322-338 | a payload that is not an integer changes nothing; otherwise every gate but 4 sets the percentage to 0, and the preset becomes the first gate preset whose value equals the payload, or stays as it was if none does |
| `VakioFan.OpenAirFan.HandleWorkmodeMessage` | custom_components/vakio_openair/fan.py:340-350 | the preset becomes "Super Auto" exactly when the lower-cased payload equals the super-auto token, and nothing else changes |
| `VakioFan.SpeedPercentage` | custom_components/vakio_openair/fan.py:293-320 | the percentage a speed message leaves is unknown exactly when the speed exceeds the list while a percentage was known, and otherwise lies between 0 and 100 |
| `VakioFan.SpeedEchoRoundTrip` | custom_components/vakio_openair/fan.py:306-310 | the percentage recorded for a reported speed `k`, set back as a percentage, publishes the named speed at position `k` again |
| `VakioFan.StateOnEchoRoundTrip` | custom_components/vakio_openair/fan.py:284-286 | the percentage recorded on power on selects the first speed again, the speed `TurnOn` publishes |
| `PercentageUtil.ItemToPercentage` | custom_components/vakio_openair/fan.py:308-310 | the percentage of a listed item lies between 0 and 100, and above 0 for lists of at most 100 items |
| `PercentageUtil.PercentageToItem` | custom_components/vakio_openair/fan.py:203-206 | every percentage selects an item of the list |
| `PercentageUtil.ItemFrom` | custom_components/vakio_openair/fan.py:259 | the helper's scan from a position returns a later item or the last one |
| `PercentageUtil.PercentageAt` | custom_components/vakio_openair/fan.py:307-310 | in a list without repetitions the item at 0-based position `i` stands for `(i + 1) * 100 // n` percent |
| `PercentageUtil.PercentageRoundTrip` | custom_components/vakio_openair/fan.py:203-206 | the percentage of an item selects that item again, for lists of at most 100 distinct items |
| `PercentageUtil.FullSpeedIsLast` | custom_components/vakio_openair/fan.py:259 | 100 percent or more selects the last speed |
| `PercentageUtil.LowSpeedIsFirst` | custom_components/vakio_openair/fan.py:203-206 | a percentage no larger than the first bound selects the first speed |
| `Python.Index` | custom_components/vakio_openair/fan.py:234 | the index of a member is a position holding it, with no earlier position holding it |
| `Python.At` | custom_components/vakio_openair/fan.py:307 | a subscript succeeds exactly for `-n <= i < n` and then yields the element at `i` modulo `n`; otherwise it is the `IndexError` |
| `Python.LowerIsOn` | custom_components/vakio_openair/fan.py:279 | the payloads whose lower-cased form is "on" are exactly "on", "oN", "On" and "ON" |
| `Python.Lower` | custom_components/vakio_openair/fan.py:344 | lower-casing keeps the length, leaves no upper-case ASCII letter, and changes exactly the upper-case letters to their lower-case forms |
| `Python.LeadingSpaces` | custom_components/vakio_openair/fan.py:294 | the leading white space `int()` drops is the longest prefix of tab, line feed, vertical tab, form feed, carriage return and space |
| `Python.TrailingStart` | custom_components/vakio_openair/fan.py:326 | the trailing white space `int()` drops is the longest such suffix of what remains |
| `Python.StripParts` | custom_components/vakio_openair/fan.py:294 | stripping keeps a contiguous part that neither starts nor ends with white space, with only white space outside it |
| `Python.ParseInt` | custom_components/vakio_openair/fan.py:326 | a payload that parses holds only white space, digits, underscores and signs, and at least one digit; anything else is the `ValueError` |
| `Python.ParseShow` | custom_components/vakio_openair/fan.py:294 | the decimal form of every integer parses back to that integer, unless it has more than 4300 digits, when `int()` refuses it |
| `Python.ParsePadded` | custom_components/vakio_openair/fan.py:294 | white space around a payload does not change how it parses |

## Left out

- Message-bus plumbing: the subscriptions in `async_added_to_hass` (fan.py:136-154) and the transport behind `async_publish` are network I/O. Publishing is modelled as appending to `outbox`. Quality of service and delivery are not modelled.
- Host machinery: `async_write_ha_state` is a host UI refresh and is a no-op here. The entity lifecycle and the `hass` handle are not modelled.
- Interleaving: each command is modelled as one atomic step. The source yields at every `await self.async_publish`, so an inbound handler can run in between. For example, a speed message can change the percentage between the work-mode publication (fan.py:220) and the percentage test (fan.py:226). The model does not capture those interleavings.
- Setup and metadata: `async_setup_entry` (fan.py:78-98), the feature bitmasks (fan.py:42-55), the unused module-level helper calls (fan.py:39-40), and logging of invalid payloads are not modelled.
- Read-only properties: `percentage`, `preset_mode` and `preset_modes` are plain reads of the fields `percentage`, `presetMode` and `presetModes`. `speed_count` is `|consts.speedList|`. `unique_id`, the entity name and the entry id are not modelled.
- The `preset_mode` and keyword arguments of `async_turn_on` are ignored by the source, so the model's `TurnOn` takes only the optional percentage.
- The constants module is not part of this model. Its values are parameters, under the assumptions of `Constants.Valid`. An exception the helpers would raise if those assumptions failed is not modelled.
- The host's percentage helpers are defined as that library describes them. No fidelity to its internals is claimed.
- `Python.ParseInt` models `int()` in base 10 for ASCII text only. Non-ASCII digits and non-ASCII white space are not modelled, nor are bytes payloads.
- `Python.ParseInt` uses the interpreter's default digit limit of 4300. A limit changed with `sys.set_int_max_str_digits` or the `PYTHONINTMAXSTRDIGITS` environment variable is not modelled.
- `Python.Lower` lower-cases ASCII letters only.
- `Value` has no booleans and no decimals. Python's `True == 1` and `Decimal(0) == 0` are not reproduced.
- The `except ValueError` of the work-mode handler (fan.py:349-350) cannot be reached, because `lower()` does not raise; the model has no error path there.
- `sensor.py` (float parsing of temperature and humidity, plus subscription) and `config_flow.py` (a host UI flow) are not modelled.
