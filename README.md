# Menu helpers of the hydrus client, modelled in Dafny

The hydrus client builds its context menus with a family of small helpers in
`hydrus/client/gui/ClientGUIMenus.py`. The helpers use the Qt toolkit to add items, check items, labels,
submenus and separators to a menu. This project models the logic those helpers
hold themselves:

- **Label sanitising** (`MenuLabels`, `labels.dfy`). An empty label becomes
  the placeholder `-invalid label-`. Then every `&` is doubled, so Qt shows a
  literal ampersand rather than a keyboard-mnemonic marker. The model
  defines the inverse reading, where each `&&` stands for one `&`. It proves
  that the two are mutually inverse between all strings and the
  well-escaped ones. It also proves the length formula and that the other
  characters are kept in order.
- **The menu** (`ClientGUIMenus`, `menus.dfy`). The class `Menu` holds a title
  and its action list as `seq<Entry>`. An entry is a separator, an action
  with its shown text and help texts, or a submenu. Each `Append…` helper is
  a method that appends to that list. `AppendSeparator` appends a separator
  only to a non-empty list whose last entry is not one already. It is
  specified by the function `WithSeparator`, which is proved idempotent. It
  is also proved never to create a leading separator or two separators in a
  row.
- **The tooltip rule of `AppendMenuItem`**. The tooltip is the whole
  sanitised label when eliding shortened the shown text. Otherwise it is the
  description. The status tip and the what's-this text are always the
  description.

`HydrusText.ElideText` is not part of this model. Each helper takes it as a
function parameter `elide` and calls it with the limit 128, as the source
does. Nothing is assumed about what it returns.

The model follows the code as written, including where the helpers differ
from one another:
- `AppendMenuLabel` does not sanitise its label (line 116).
- Only `AppendMenuItem` puts the full label in the tooltip when elision
  happened. The check-item and bitmap-item helpers always use the
  description (lines 31-33 and 56-58).

## Model

| member | source | states |
|---|---|---|
| MenuLabels.SanitiseLabel | hydrus/client/gui/ClientGUIMenus.py:180-187 | An empty label gives exactly `-invalid label-`. For a non-empty label, the length is the input length plus its number of `&`, and reading the result back gives the label. The result is never empty and is always well escaped: no lone `&` is left to act as a mnemonic. |
| MenuLabels.EscapeAmpersands | hydrus/client/gui/ClientGUIMenus.py:187 | `replace('&', '&&')`: the result is as long as the input plus its number of `&` |
| MenuLabels.EscapeDoublesAmpersands | hydrus/client/gui/ClientGUIMenus.py:187 | the escaped string holds exactly twice as many `&` as the input |
| MenuLabels.EscapeKeepsOtherCharacters | hydrus/client/gui/ClientGUIMenus.py:187 | removing every `&` from the escaped string and from the input gives the same string, so all other characters are kept in order |
| MenuLabels.EscapeConcat | hydrus/client/gui/ClientGUIMenus.py:187 | escaping a concatenation is the concatenation of the escaped parts. With the one-character cases this fixes the replacement character by character. |
| MenuLabels.CollapseEscape | hydrus/client/gui/ClientGUIMenus.py:187 | round trip: collapsing each `&&` back to `&` in the escaped string gives the original string |
| MenuLabels.EscapeCollapse | hydrus/client/gui/ClientGUIMenus.py:187 | converse round trip: every well-escaped caption is the escape of what it reads back as |
| MenuLabels.EscapeIsWellEscaped | hydrus/client/gui/ClientGUIMenus.py:187 | every `&` in an escaped string belongs to a `&&` pair |
| MenuLabels.NoAmpersandUnchanged | hydrus/client/gui/ClientGUIMenus.py:187 | a string without `&` is left unchanged |
| MenuLabels.PlaceholderUnescaped | hydrus/client/gui/ClientGUIMenus.py:182-187 | escaping leaves the placeholder `-invalid label-` unchanged |
| MenuLabels.SanitiseLabelInjective | hydrus/client/gui/ClientGUIMenus.py:180-187 | two non-empty labels with the same sanitised caption are equal |
| MenuLabels.EmptyLabelLooksLikePlaceholder | hydrus/client/gui/ClientGUIMenus.py:182-184 | the empty label and the literal text `-invalid label-` sanitise to the same caption |
| ClientGUIMenus.ToolTipFor | hydrus/client/gui/ClientGUIMenus.py:84-90 | Either the shown text is the whole caption or the tooltip is. The tooltip is the description unless the shown text differs from the caption. |
| ClientGUIMenus.MenuItemShowsLabel | hydrus/client/gui/ClientGUIMenus.py:80-90 | For a non-empty label: when elision kept the caption whole, the menu text reads back as exactly the label. When it did not, the tooltip is the sanitised caption, which is the label with every `&` doubled. |
| ClientGUIMenus.ElidedToolTipDoublesAmpersand | hydrus/client/gui/ClientGUIMenus.py:84-86 | when the label `a&b` is elided, its tooltip is `a&&b`, because line 86 uses the sanitised label |
| ClientGUIMenus.WithSeparator | hydrus/client/gui/ClientGUIMenus.py:128-138 | The list is unchanged or gets exactly one separator appended, and all old entries are kept in order. The result ends in a separator exactly when the input is non-empty. Nothing is added to an empty list or to one already ending in a separator. |
| ClientGUIMenus.WithSeparatorIdempotent | hydrus/client/gui/ClientGUIMenus.py:128-138 | applying it twice gives the same list as applying it once |
| ClientGUIMenus.WithSeparatorKeepsWellSeparated | hydrus/client/gui/ClientGUIMenus.py:128-138 | a list with no leading separator and no two adjacent separators keeps both properties |
| ClientGUIMenus.AppendEntryKeepsWellSeparated | hydrus/client/gui/ClientGUIMenus.py:96 | appending an item (not a separator) keeps a well-separated list well separated |
| ClientGUIMenus.Menu.AppendSeparator | hydrus/client/gui/ClientGUIMenus.py:128-138 | The new action list is `WithSeparator` of the old one, and the title is untouched. A well-separated list stays well separated. |
| ClientGUIMenus.Menu.AppendMenuItem | hydrus/client/gui/ClientGUIMenus.py:69-100 | Appends one action and returns it. Its text is the elided sanitised label, its tooltip follows `ToolTipFor`, and its status tip and what's-this text are the description. It is not checkable, not checked and has no icon. A following AppendSeparator adds exactly one separator. |
| ClientGUIMenus.Menu.AppendMenuCheckItem | hydrus/client/gui/ClientGUIMenus.py:43-67 | Appends one checkable action, checked as `initialValue`. Its text is the elided sanitised label, and all three help texts are the description. |
| ClientGUIMenus.Menu.AppendMenuBitmapItem | hydrus/client/gui/ClientGUIMenus.py:18-41 | Appends one action with an icon. Its text is the elided sanitised label, and all three help texts are the description. |
| ClientGUIMenus.Menu.AppendMenuLabel | hydrus/client/gui/ClientGUIMenus.py:102-126 | Appends one action whose text is the elided label, which is not sanitised. All three help texts are the description, with a missing description read as the empty one. |
| ClientGUIMenus.Menu.AppendMenu | hydrus/client/gui/ClientGUIMenus.py:11-16 | sets the submenu's title to the sanitised label and appends the submenu as one entry |

## Left out

- `HydrusText.ElideText`: that file is not part of this model. It is a function parameter with no properties, so where the ellipsis goes is not modelled.
- `BindMenuItem` (lines 142-146) and `GetEventCallable` (lines 160-178) are left out. They connect Qt signals to arbitrary callables and read a global profiling flag.
- The clipboard binding in `AppendMenuLabel` (line 124) is left out. It publishes through the global client controller.
- `DestroyMenu` (lines 148-157) is left out. It only checks Qt's native-handle validity and schedules `deleteLater`.
- The macOS `ApplicationSpecificRole` setting (lines 24-26 and the like) is left out. It is a platform flag with no effect on the action list.
- Icons are left out: `AppendMenuBitmapItem` records only that the action has an icon, not which bitmap.
- `ClientGUIMenus.Menu.AppendMenu` records the submenu by reference. Qt's own `addMenu` behaviour, beyond appending one entry, is not modelled.
- Qt's `actions()` can be changed by code outside these helpers. The model therefore keeps `WellSeparated` as a property the helpers preserve, not as an invariant of `Menu`.
- ClientGUIMenus.MenuItemShowsLabel: the tooltip of an elided item is the sanitised caption, so each `&` of the label appears doubled there. Qt shows tooltips as written and reads `&&` as one `&` only in menu text. The model states what the tooltip holds, not how Qt draws it.
