# Layer tree export: a verified model

A Figma plugin exports the selected layers in two forms:

- a **text listing**: one `name (TYPE)` line per node, drawn with the box
  connectors `├── ` and `└── `;
- a **detail record** per node: a JSON-like object whose keys appear only when
  the node has something worth exporting. The keys cover visibility, lock,
  geometry, opacity, blend mode, corner radius, clipping, constraints, layout
  sizing, fills, strokes, effects, auto layout, typography, component
  linkage, and the children's records.

This project models the converter behind both exports, in `code.js` lines
6-386, and proves what it promises.

## Modules

| module | file | contents |
|---|---|---|
| `Attrs` | `attrs.dfy` | `Option`, and `Tri` (absent / "mixed" sentinel / value) for attributes that may be missing or mixed. `Mixable` for typography attributes that are always present but may be mixed. JavaScript truthiness of strings. |
| `Nodes` | `nodes.dfy` | The input tree: nodes, paints, effects, colours, layout and text attributes. |
| `Numerals` | `numerals.dfy` | `Math.round`, integer `toString` in bases 10 and 16, `padStart(2, '0')` and `toFixed(2)`, with read-back lemmas. |
| `Colors` | `colors.dfy` | `colorToHex` and `colorToRgba`. |
| `Paints` | `paints.dfy` | `getFills`, `getStrokes`, `getEffects`. Each is a specification function plus the source's accumulator loop as a method proved equal to it. |
| `Layout` | `layout.dfy` | `getAutoLayout`, `getConstraints`, `getLayoutSizing`, `getCornerRadius`. |
| `Typography` | `typography.dfy` | `getTextStyles`. |
| `DetailBuilder` | `details.dfy` | `getNodeDetails` and its reverse loop over the children. |
| `TreeText` | `tree_text.dfy` | `getNodeInfo` and `getRootNodeInfo` (string accumulator loops), and the listing viewed as a sequence of lines. |
| `Seqs` | `seqs.dfy` | The filter and map shapes the loops build, and their index lemmas. |
| `Exports` | `exports.dfy` | How the two exports line up node for node. |

## How the model is built

Each accumulator loop of the source becomes a `method` with the same loop:

- the downward loops over the children in `getNodeInfo`, `getRootNodeInfo` and `getNodeDetails`;
- the `continue`-filtering loops in `getFills`, `getStrokes` and `getEffects`;
- the gradient-stop loop.

Each method is proved equal to a recursive specification function. The facts
the source promises are then proved about those functions.

The straight-line extractors (`getAutoLayout`, `getConstraints`,
`getLayoutSizing`, `getCornerRadius`, `getTextStyles`) are functions.
`getLayoutSizing` assigns its two keys one at a time; the model keeps those
two steps as successive bindings.

`getNodeDetails` is the method `GetNodeDetails`. It takes the keys decided by
straight-line conditionals from one function, `AttributeKeys`, which has one
conditional per key. It then adds the fills, strokes, effects and children
one at a time, as the source does.

A record key that the source does not emit is `None`, or `Absent` for the
stroke attributes that keep the "mixed" sentinel. An absent `children` key is
the empty sequence: the source never writes an empty `children` list.

## Behaviour worth noting

Two consequences of the code that a reader of its output may not expect:

- **Tree order.** The code draws children from the last in source order to the
  first, and gives the terminal connector to source child 0
  (`code.js:12-14`, `code.js:25-27`). For a frame `Card` with source children
  `[Title, Icon]` the listing is `Card (FRAME)`, `├── Icon (FRAME)`,
  `└── Title (TEXT)`, with both children at the same depth. This is
  `TreeText.CardListing`.
- **Opacity just below 1.** An opacity such as 0.999 is compared with 1 before
  rounding, so the record keeps the key and reports `opacity: 1`
  (`code.js:316-318`). This is `DetailBuilder.NearlyOpaque`.

## Model

| member | source | states |
|---|---|---|
| TreeText.GetNodeInfo | code.js:6-19 | The string accumulated by the loop equals the listing of the subtree. That listing is the node's line `prefix + connector + name (TYPE)`, then the children's listings from the last source child to the first, with only source child 0 drawn as last and the children's prefix extended by the node's indent. |
| TreeText.ChildrenInfoStep | code.js:12-15 | One pass of the downward loop appends the listing of child j, drawn as last exactly when j is 0. |
| TreeText.GetRootNodeInfo | code.js:21-32 | The root listing is the root's line, with no prefix and no connector, followed by the children's listings in the same order and connectors as in GetNodeInfo, with an empty prefix. |
| TreeText.LeafInfo | code.js:6-8 | A childless node's listing is its single line `prefix + connector + name + " (" + type + ")\n"`. |
| TreeText.InfoIsLines | code.js:6-19 | A node's listing is exactly its sequence of lines, each closed by one line break. |
| TreeText.ChildrenInfoIsLines | code.js:10-16 | The children's part of a listing is their lines joined, each closed by a line break. |
| TreeText.RootInfoIsLines | code.js:21-32 | The root listing is the root's lines, each closed by a line break. |
| TreeText.UnlinesAppend | code.js:14 | Appending two listings appends their line sequences. |
| TreeText.LineCount | code.js:6-19 | A subtree's listing has exactly one line per node of the subtree. |
| TreeText.ChildrenLineCount | code.js:12-15 | The children's part has one line per node of the children's subtrees. |
| TreeText.LinesPrefixed | code.js:7-11 | A node's first line is `prefix + connector + label`. Every line of its listing starts with its prefix. Every line below the first starts with the prefix extended by four spaces (last child) or by a bar and three spaces (other children). |
| TreeText.ChildrenLinesPrefixed | code.js:11-15 | Every line of the children's part starts with the prefix handed to the children. |
| TreeText.ChildrenLinesSplit | code.js:12-15 | The children's lines split into the lines of the children after k, then child k's block, then the rest. |
| TreeText.ChildBlock | code.js:11-15 | Child k's block starts after the blocks of all children after it in source order. Its line carries `└── ` exactly when k is 0 and `├── ` otherwise. The lines below it extend the prefix by that child's indent. Child k - 1's block follows it directly. |
| TreeText.RootChildLine | code.js:24-28 | In the root listing, the line of source child k sits right after the root line and the blocks of children k+1 onwards, and reads `connector(k == 0) + name (TYPE)`. |
| TreeText.LinesUnbroken | code.js:8 | When no name or type contains a line break, no line of a listing does. |
| TreeText.ChildrenLinesUnbroken | code.js:12-15 | The same for the children's part. |
| TreeText.UnlinesBreaks | code.js:8 | Joining n break-free lines gives text with exactly n line breaks. |
| TreeText.OneLinePerNode | code.js:6-19 | The text for a subtree has exactly as many line breaks as the subtree has nodes. |
| TreeText.RootListing | code.js:21-32 | The root listing has one newline-terminated line per node, and its first line is the unprefixed `name (TYPE)`. |
| TreeText.CardListing | code.js:21-32 | Root `Card` with source children `[Title, Icon]` renders as `Card (FRAME)`, `├── Icon (FRAME)`, `└── Title (TEXT)`. |
| TreeText.CardChildren | code.js:25-27 | The two children of that example are drawn Icon first with `├── `, then Title with `└── `, both unprefixed. |
| Numerals.Round | code.js:40 | `Math.round` gives an integer within half a unit of its argument, rounding halves up. |
| Numerals.Digit | code.js:40 | A digit below 16 is a lowercase hex digit, and a decimal digit when below 10. |
| Numerals.NatToDigits | code.js:40 | `toString(base)` of a non-negative integer is a non-empty string of lowercase hex digits, and of decimal digits in base 10. |
| Numerals.PadStart2 | code.js:40 | `padStart(2, '0')` keeps strings of length 2 or more. It pads shorter ones on the left with zeros to exactly two characters, keeping the original as the suffix. |
| Numerals.DigitsRoundTrip | code.js:48-52 | Reading back the digits `toString` writes gives the integer. |
| Numerals.LeadingZeros | code.js:40 | Zero padding does not change the value a digit string reads as. |
| Numerals.ByteHex | code.js:40-42 | A channel 0..255 becomes exactly two lowercase hex digits that read back as the channel. |
| Numerals.Fixed2Reads | code.js:52 | A non-negative `toFixed(2)` is a non-empty whole part of decimal digits, a point and exactly two decimal digits. Together they read back as the hundredths nearest the value. |
| Colors.Channel | code.js:40-42 | `Math.round(c * 255)` of a channel in [0, 1] lies in 0..255. |
| Colors.ColorToHex | code.js:38-44 | There is an encoding exactly when there is a colour, and it starts with `#`. |
| Colors.HexFormat | code.js:38-44 | For channels in [0, 1] the encoding is `#` and six lowercase hex digits. Each pair reads back as its rounded channel, which is within half a step of 255 times the channel. |
| Colors.ColorToRgba | code.js:46-53 | There is an encoding exactly when there is a colour. |
| Colors.RgbaFormat | code.js:46-53 | For channels in [0, 1] the encoding is `rgba(`, the three channels as non-empty strings of decimal digits, then `toFixed(2)` of the given opacity, or of 1 when none is given, separated by `, ` and closed by `)`. Each channel reads back as its rounded value. |
| Paints.StopEntryFormat | code.js:74-78 | A stop position in [0, 1] is written as decimal digits and `%`, reading back as the whole percentage, which is at most 100. |
| Paints.BuildStopEntries | code.js:71-80 | The stop loop gives one entry per stop, in order. |
| Paints.BuildFillEntry | code.js:63-84 | The field-by-field construction of one fill entry gives the fill's entry. |
| Paints.FillEntryShape | code.js:63-84 | An entry keeps the fill's type and opacity. It carries the hex colour exactly for a coloured SOLID. Every gradient carries a stop list: entry j is the entry of stop j, in the fill's order, and the list is empty when the fill has no stops. It carries scale mode and image hash exactly for IMAGE, and nothing else otherwise. |
| Paints.GetFills | code.js:55-90 | The `continue`-filtering loop gives the entries of the shown fills in order, and no value for an absent, mixed or empty list. |
| Paints.FillsNoneIff | code.js:56-89 | There are no fills exactly when the list is absent or mixed, or every fill is hidden (an empty list included). |
| Paints.FillsOrder | code.js:58-87 | The entries are those of the shown fills, one each, in source order. A fill is used exactly when it is not explicitly invisible. |
| Paints.BuildStrokeEntry | code.js:100-104 | The construction of one stroke entry gives the stroke's entry. |
| Paints.StrokeEntryShape | code.js:100-104 | An entry keeps the type. It carries a hex colour and the opacity exactly for a SOLID stroke with a colour. |
| Paints.GetStrokes | code.js:92-127 | The loop and the conditional keys give the stroke block, or no value. |
| Paints.StrokesShape | code.js:108-126 | A block has at least one colour entry, and the node's weight, alignment and join. `cap` is present exactly when the node has one that is not "NONE". `dashPattern` is present exactly when the node has a non-empty one. |
| Paints.StrokesNoneIff | code.js:93-108 | There is no block exactly when strokes are absent or all hidden (an empty list included). |
| Paints.StrokesOrder | code.js:95-106 | The colour entries are those of the shown strokes, one each, in source order. |
| Paints.BuildEffectEntry | code.js:137-146 | The construction of one effect entry gives the effect's entry. |
| Paints.EffectEntryShape | code.js:137-146 | Shadows carry colour, offset, blur and spread; blurs carry the blur; other effects carry nothing. The shadow colour is the rgba text with the colour's own alpha as opacity, or null without a colour. Spread appears only when non-zero. |
| Paints.GetEffects | code.js:129-152 | The loop gives the entries of the shown effects in order, or no value. |
| Paints.EffectsNoneIff | code.js:130-151 | There are no effects exactly when they are absent or all hidden. |
| Paints.EffectsOrder | code.js:132-149 | The effect entries are those of the shown effects, one each, in source order. |
| Layout.AutoLayoutShape | code.js:154-185 | About `AutoLayoutOf`, which models `getAutoLayout`: the block exists exactly when the layout mode is present and not "NONE". It copies direction, gap, padding and alignments. `wrap` is present exactly when the wrap mode is present and not "NO_WRAP", and only then the cross-axis gap. It copies the sizing modes. |
| Layout.ConstraintsOf | code.js:187-193 | Constraints are present exactly when the node has them, with both axes copied. |
| Layout.LayoutSizingOf | code.js:195-204 | The block is present exactly when one sizing mode is a non-empty string, and it carries both modes as read. |
| Layout.CornerRadiusOf | code.js:206-220 | A mixed radius gives the four corners. A positive radius gives the radius. An absent, zero or negative radius gives no value. |
| Typography.TextStylesShape | code.js:222-280 | About `TextStylesOf`, which models `getTextStyles`: there is a block exactly for TEXT nodes. A mixed font gives family "mixed" and no style. A mixed size gives "mixed". A mixed line height or letter spacing is left out. A line height is `auto` exactly for the AUTO unit, a percentage for PERCENT and the number otherwise. A letter spacing is a percentage for PERCENT and the number otherwise. Decoration and case appear exactly when determinate and not "NONE" / "ORIGINAL". Paragraph spacing appears exactly when positive. Content and both alignments are always present. |
| DetailBuilder.Round2 | code.js:300-317 | `Math.round(v * 100) / 100` is within half a hundredth of v and has at most two decimals. |
| DetailBuilder.GetNodeDetails | code.js:282-386 | Starting from the attribute keys (`AttributeKeys`), then adding the fills, strokes, effects and children only when present, gives the node's record. |
| DetailBuilder.GetChildrenDetails | code.js:378-383 | The reverse loop gives the children's records from the last source child to the first. |
| DetailBuilder.ReversedDetailsLength | code.js:379-382 | The loop pushes one record per child. |
| DetailBuilder.ReversedDetailsAt | code.js:380-382 | Entry i of the pushed records is the record of source child `len - 1 - i`. |
| DetailBuilder.ReversedDetailsAll | code.js:378-383 | The same for all i at once. |
| DetailBuilder.DetailsChildren | code.js:378-383 | A record's children list has as many entries as the node has children, and entry i is the record of source child `len - 1 - i`. |
| DetailBuilder.OwnKeys | code.js:283-332 | Name and type are always copied. `visible: false` and `locked: true` appear only off their defaults. `clipsContent` appears exactly when it is true. Width/height and x/y appear in pairs. Rotation and opacity appear exactly when not 0 / 1. Width, height, x, y, rotation and opacity are each within half a hundredth of the node's value. Blend mode appears exactly when present and not NORMAL or PASS_THROUGH. |
| DetailBuilder.NearlyOpaque | code.js:316-318 | An opacity in [0.995, 1) is kept and reported as 1. |
| DetailBuilder.ComponentLinks | code.js:362-375 | `componentName` exactly for an instance with a main component. `componentSet` exactly when that component's parent is a component set. `componentId` exactly for a component, and it is the node's id. |
| DetailBuilder.OwnDetailsCanonical | code.js:282-376 | No record carries a default or empty key: no `visible: true`, `locked: false`, neutral blend mode, non-positive scalar radius, or empty paint list. Text appears only on TEXT nodes, linkage only on the right node types. |
| DetailBuilder.NodeDetailsCanonical | code.js:282-386 | The same holds for every record of the tree. |
| Exports.RecordsCount | code.js:378-383 | A node's record tree holds exactly one record per node of its subtree. |
| Exports.ChildrenRecordsCount | code.js:379-382 | The records pushed for the children hold one record per node of their subtrees. |
| Exports.SameNodes | code.js:378-383 | The detail export of a root has exactly as many records as its text listing has lines. |
| Exports.ExportsAgree | code.js:380-382 | Source child k of the root has its record at position `len - 1 - k` of the children list, and that record names it and its type. Its listing line sits right after the root line and the blocks of children k+1 onwards, with `└── ` exactly when k is 0. Both exports list the children in the same order. |

## Left out

- The message handler and host glue (`code.js:391-496`): showing the UI,
  receiving messages, reading the selection, posting results and closing.
  This includes the empty-selection error and the joining and trimming of the
  per-root listings. These are host I/O, and the model starts from one root
  node.
- `JSON.stringify` and the key order of the emitted objects. A record is a
  datatype with an optional field per key.
- DetailBuilder.GetNodeDetails: the twenty keys that `getNodeDetails` assigns
  one `if` at a time (`code.js:283-375`, apart from the fills, strokes and
  effects) are one record expression, `AttributeKeys`, with one conditional
  per key. The method adds only the three paint lists and the children as
  separate steps. The order in which keys are added is not modelled, as for
  JSON key order.
- Binary floating point. Numbers are exact reals, so `Math.round(x * 100) / 100`,
  `Math.round(c * 255)` and `toFixed(2)` are modelled on exact values. Their
  float rounding error, `NaN` and the infinities are not modelled.
- Numerals.Fixed2Reads: `toFixed(2)` for magnitudes of 1e21 and above, which
  JavaScript writes in exponent form, is not modelled.
- Typography.TextStylesShape: the number before `%` in a percentage line
  height or letter spacing is kept as a number (`Percent(value)`). JavaScript's
  number-to-string conversion of it is not modelled.
- The host's `mainComponent` lookup is a query into the document. The model
  takes its result as an optional field of the node (`attrs.mainComponent`),
  consulted only on INSTANCE nodes.
- A node without a `children` attribute and a node with an empty list are
  both the empty sequence, because the code treats them the same.
- `fills` or `strokes` that are `null`, and a non-string `type`, are not
  modelled. The host never supplies them on nodes that carry these attributes.
- Typography attributes exist only on TEXT nodes. The model gives every node
  such a record and reads it only when the type is TEXT, as the code does.
