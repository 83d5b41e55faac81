# Shoe card variant model

A Dafny model of the product card of the Sole & Ankle storefront
(`src/components/ShoeCard/ShoeCard.js`). The card puts a shoe into one of
three display variants: `on-sale`, `new-release` or `default`. The variant
then decides what the card shows: the sale-price span, the "Sale" badge,
the "Just Released!" badge, and whether the regular price is struck
through.

- `js.dfy`, module `Js`: the JavaScript values a prop can hold. It defines
  the `typeof` operator (ECMAScript 2023, section 13.5.3) and truthiness
  (ToBoolean, section 7.1.2). The card tests `typeof salePrice === 'number'`.
  So any number counts as a sale price, including `0`, `NaN` and the
  infinities. `undefined`, `null`, strings and bigints do not.
- `elements.dfy`, module `Elements`: the element tree a component returns.
  It has tagged nodes and text leaves. The module counts the nodes that carry
  a tag and lists the text leaves in document order. It also has the append
  lemmas the card proofs use.
- `shoe_card.dfy`, module `ShoeCard` holds:
  - the `Variant` datatype, whose `Name` is the string the component uses;
  - `Classify`, the nested ternary;
  - `RenderFlags`, the variant-dependent choices;
  - `Render`, the JSX tree as an `Element<Tag>`;
  - the lemmas that tie the tree to the flags and to the classification.

The helpers `formatPrice`, `pluralize` and `isNewShoe` are imported from
`src/utils`, which is not part of this model. They are passed in as
uninterpreted functions in a `Utils` record. The release date has a type
parameter `D`, so nothing is assumed about its representation.

The code tests only `typeof salePrice === 'number'`. So a negative number,
`NaN` or an infinity makes the card on sale, and a bigint does not. No
amount check and no comparison with `price` takes part.

## Model

| member | source | states |
|---|---|---|
| `Js.TypeOf` | src/components/ShoeCard/ShoeCard.js:20 | `typeof v` is "number" exactly for number values (zero, NaN and infinities included) and "object" exactly for `null` and objects |
| `Js.NumberButFalsy` | src/components/ShoeCard/ShoeCard.js:20 | the only numbers a truthiness test would reject are 0 and NaN, so those are exactly the numbers on which the `typeof` test and a truthiness test disagree |
| `Js.IsNumber` | src/components/ShoeCard/ShoeCard.js:20 | the test `typeof salePrice === 'number'` holds exactly for number values, and for no other kind of value |
| `ShoeCard.Classify` | src/components/ShoeCard/ShoeCard.js:20-24 | exactly one variant: on-sale iff the sale price is a number; new-release iff it is not a number and `isNewShoe(releaseDate)` holds; default iff neither |
| `ShoeCard.SaleDominatesRecency` | src/components/ShoeCard/ShoeCard.js:14-22 | when the sale price is a number and the shoe is new, the variant is still on-sale |
| `ShoeCard.ZeroSalePriceIsOnSale` | src/components/ShoeCard/ShoeCard.js:20-21 | a sale price of 0 is falsy and still makes the card on sale, whatever the release date |
| `ShoeCard.OnSaleIgnoresReleaseDate` | src/components/ShoeCard/ShoeCard.js:20-24 | with a numeric sale price the variant is on-sale for every release date and every recency test, so `isNewShoe` is never consulted |
| `ShoeCard.Variant.Name` | src/components/ShoeCard/ShoeCard.js:21-24 | the three variant strings "on-sale", "new-release" and "default", each naming exactly one variant, so comparing strings tells variants apart |
| `ShoeCard.RenderFlags` | src/components/ShoeCard/ShoeCard.js:35-43 | sale-price span, "Sale" badge and line-through on the regular price iff on-sale; "Just Released!" badge iff new-release; the two badges never both |
| `ShoeCard.PriceDecoration` | src/components/ShoeCard/ShoeCard.js:80-82 | the `Price` span is struck through only for the string "on-sale"; for a variant's string it is struck iff that variant is on-sale |
| `ShoeCard.RenderCount` | src/components/ShoeCard/ShoeCard.js:26-46 | the card holds each fixed part once (two rows), one price span styled after the variant, and the sale-price span and each badge exactly once when their condition holds, otherwise not at all |
| `ShoeCard.RenderMatchesFlags` | src/components/ShoeCard/ShoeCard.js:35-43 | the rendered tree agrees with the flags: each optional element occurs once when its flag is set and never otherwise |
| `ShoeCard.NameRow` | src/components/ShoeCard/ShoeCard.js:33-36 | the first row shows the name and then `formatPrice(price)` |
| `ShoeCard.ColorRow` | src/components/ShoeCard/ShoeCard.js:37-40 | the second row shows `pluralize('Color', numOfColors)` for every variant, then `formatPrice(price)` again, not `salePrice`, iff the variant is on-sale |
| `ShoeCard.Badges` | src/components/ShoeCard/ShoeCard.js:42-43 | at most one badge; none iff the variant is default; its text is "Just Released!" iff new-release and "Sale" iff on-sale |
| `ShoeCard.Render` | src/components/ShoeCard/ShoeCard.js:26-46 | the card's text in order: name, `formatPrice(price)`, `pluralize('Color', numOfColors)`, then `formatPrice(price)` again when on sale, "Just Released!" when new, "Sale" when on sale. Its nodes are stated by `RenderCount` and `RenderMatchesFlags` |
| `ShoeCard.PriceStruckIffOnSale` | src/components/ShoeCard/ShoeCard.js:80-82 | the card has exactly one regular-price span; it is struck through iff the sale price is a number |
| `ShoeCard.BadgesExclusive` | src/components/ShoeCard/ShoeCard.js:39-43 | at most one of the two badges is shown, and the sale-price span appears exactly when the "Sale" badge does |
| `ShoeCard.SaleAmountNotRendered` | src/components/ShoeCard/ShoeCard.js:35-39 | any two numeric sale prices give the same card: the amount of `salePrice` is never shown |

## Left out

- The bodies of `formatPrice`, `pluralize` and `isNewShoe` (`src/utils`) are not part of this model. They are uninterpreted total, pure functions. No rounding or pluralisation rule is stated.
- `isNewShoe` is called as `isNewShoe(releaseDate)` with no time argument, so no recency window or date arithmetic is stated. It is taken as a fixed predicate of the date. Any clock it reads, and any exception the helpers could throw, is not modelled; `SaleAmountNotRendered` compares two renders under the same helpers.
- `Spacer` (`src/components/Spacer`) is not part of this model; it appears as a leaf node of the tree.
- The `Link` `href` built from `slug`, and the image's `src`, are not modelled. Those nodes appear without attributes.
- All styled-components CSS is left out except the `text-decoration` of `Price`. That includes colours, weights, sizes and positioning.
- React's own rendering is not modelled: a `false` child from `cond && <X/>` is taken to render as nothing, and the `name` prop is taken to be a string.
- Js.Number: any real stands for a finite double; which reals a double can hold is not modelled, and `+0` and `-0` are one value. No contract depends on this: `typeof` is "number" for all of them, and the card does no arithmetic on them.
- `src/components/Header/Header.js` is left out: it is fixed markup with no decisions.
