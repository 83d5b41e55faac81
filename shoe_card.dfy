/**
 * The product card of the storefront grid: which of three variants a shoe is
 * shown in, and what the card then shows.  The helpers the card imports from
 * the utilities module (`formatPrice`, `pluralize`, `isNewShoe`) are not part
 * of this model; they are passed in as uninterpreted functions.
 */
module ShoeCard {
  import Js
  import opened Elements

  /** The card's display variant; `ShoeCard` carries it as one of three strings. */
  datatype Variant = OnSale | NewRelease | Default {
    /** The string the component passes around and compares against; each variant has its own. */
    function Name(): (r: string)
      ensures r == "on-sale" <==> OnSale?
      ensures r == "new-release" <==> NewRelease?
      ensures r == "default" <==> Default?
    {
      match this
      case OnSale => "on-sale"
      case NewRelease => "new-release"
      case Default => "default"
    }
  }

  /** The props the classification and the visible text depend on. */
  datatype Props<D> = Props(
    name: string,
    price: Js.Value,
    salePrice: Js.Value,
    releaseDate: D,
    numOfColors: Js.Value)

  /** The imported helpers, whose bodies are not part of this model. */
  datatype Utils<!D> = Utils(
    formatPrice: Js.Value -> string,
    pluralize: (string, Js.Value) -> string,
    isNewShoe: D -> bool)

  /**
   * The variant: a sale price that is a number (zero and NaN included) makes
   * the card on sale whatever its release date; otherwise a recent release
   * makes it new; otherwise it is the default card.  Sale beats recency.
   */
  function Classify<D>(salePrice: Js.Value, releaseDate: D, isNewShoe: D -> bool): (v: Variant)
    ensures v.OnSale? <==> salePrice.Num?
    ensures v.NewRelease? <==> !salePrice.Num? && isNewShoe(releaseDate)
    ensures v.Default? <==> !salePrice.Num? && !isNewShoe(releaseDate)
  {
    if Js.IsNumber(salePrice) then OnSale
    else if isNewShoe(releaseDate) then NewRelease
    else Default
  }

  datatype Decoration = NoDecoration | LineThrough

  /** The `text-decoration` the styled `Price` span picks from its `variant` prop. */
  function PriceDecoration(variant: string): (d: Decoration)
    ensures d == LineThrough ==> variant == OnSale.Name()
    ensures forall v: Variant :: v.Name() == variant ==> (d == LineThrough <==> v.OnSale?)
  {
    if variant == "on-sale" then LineThrough else NoDecoration
  }

  /** Which variant-dependent parts of the card are shown. */
  datatype Flags = Flags(
    salePriceShown: bool,
    saleBadge: bool,
    justReleasedBadge: bool,
    regularPriceStruck: bool)

  /**
   * The card's variant-dependent choices, each decided by comparing the
   * variant's string: the sale-price span and the "Sale" badge for an on-sale
   * card, the "Just Released!" badge for a new one, and the regular price
   * struck through exactly when the sale price is shown beside it.
   */
  function RenderFlags(variant: Variant): (f: Flags)
    ensures f.salePriceShown <==> variant.OnSale?
    ensures f.saleBadge <==> variant.OnSale?
    ensures f.justReleasedBadge <==> variant.NewRelease?
    ensures f.regularPriceStruck <==> variant.OnSale?
    ensures !(f.saleBadge && f.justReleasedBadge)
  {
    Flags(
      variant.Name() == "on-sale",
      variant.Name() == "on-sale",
      variant.Name() == "new-release",
      PriceDecoration(variant.Name()) == LineThrough)
  }

  /** The styled components (and the imported `Spacer`) the card is built from. */
  datatype Tag =
    | Link
    | Wrapper
    | ImageWrapper
    | Image
    | Spacer
    | Row
    | Name
    | Price(decoration: Decoration)
    | ColorInfo
    | SalePrice
    | JustReleased
    | OnSaleBadge

  /** The first row: the shoe's name and its regular price, styled after the variant. */
  function NameRow<D>(p: Props<D>, u: Utils<D>, variant: Variant): (r: Element<Tag>)
    ensures Texts(r) == [p.name, u.formatPrice(p.price)]
  {
    var name := Node(Name, [Text(p.name)]);
    var price := Node(Price(PriceDecoration(variant.Name())), [Text(u.formatPrice(p.price))]);
    PairTexts(name, price);
    LabelTexts(Name, p.name);
    LabelTexts(Price(PriceDecoration(variant.Name())), u.formatPrice(p.price));
    Node(Row, [name, price])
  }

  /** The second row: the colour count, then the sale-price span on an on-sale card. */
  function ColorRow<D>(p: Props<D>, u: Utils<D>, variant: Variant): (r: Element<Tag>)
    ensures Texts(r)
      == [u.pluralize("Color", p.numOfColors)] + (if variant.OnSale? then [u.formatPrice(p.price)] else [])
  {
    var colors := Node(ColorInfo, [Text(u.pluralize("Color", p.numOfColors))]);
    var sale := Node(SalePrice, [Text(u.formatPrice(p.price))]);
    TextsInAppend([colors], When(variant.Name() == "on-sale", sale));
    SingleTexts(colors);
    LabelTexts(ColorInfo, u.pluralize("Color", p.numOfColors));
    LabelTexts(SalePrice, u.formatPrice(p.price));
    Node(Row, [colors] + When(variant.Name() == "on-sale", sale))
  }

  /** The badges after the rows: "Just Released!" for a new card, "Sale" for an on-sale one. */
  function Badges(variant: Variant): (r: seq<Element<Tag>>)
    ensures |r| <= 1
    ensures |r| == 0 <==> variant.Default?
    ensures TextsIn(r)
      == (if variant.NewRelease? then ["Just Released!"] else [])
         + (if variant.OnSale? then ["Sale"] else [])
  {
    When(variant.Name() == "new-release", Node(JustReleased, [Text("Just Released!")]))
    + When(variant.Name() == "on-sale", Node(OnSaleBadge, [Text("Sale")]))
  }

  /** The text of a card assembled from its rows and badges, in document order. */
  lemma CardTexts(row1: Element<Tag>, row2: Element<Tag>, badges: seq<Element<Tag>>,
                  name: string, price: string, colors: string,
                  sale: seq<string>, isNew: seq<string>, saleBadge: seq<string>)
    requires Texts(row1) == [name, price]
    requires Texts(row2) == [colors] + sale
    requires TextsIn(badges) == isNew + saleBadge
    ensures Texts(Node(Link, [Node(Wrapper,
              [Node(ImageWrapper, [Node(Image, [])]), Node(Spacer, []), row1, row2] + badges)]))
            == [name, price, colors] + sale + isNew + saleBadge
  {
    FrameTexts(Link, Wrapper, Node(ImageWrapper, [Node(Image, [])]), Node(Spacer, []), row1, row2, badges);
    NestedEmpty(ImageWrapper, Image, Link);
    assert Texts(Node(Spacer, [])) == [];
    calc {
      Texts(Node(Link, [Node(Wrapper,
        [Node(ImageWrapper, [Node(Image, [])]), Node(Spacer, []), row1, row2] + badges)]));
      Texts(row1) + Texts(row2) + TextsIn(badges);
      [name, price] + ([colors] + sale) + (isNew + saleBadge);
      { assert [name, price] + [colors] == [name, price, colors]; }
      [name, price, colors] + sale + isNew + saleBadge;
    }
  }

  /**
   * The element tree the card component returns for the given props.  Its
   * visible text, in document order: both price texts are
   * `formatPrice(price)`, so the sale-price span does not show `salePrice`,
   * and the colour text is `pluralize('Color', numOfColors)` whatever the
   * variant.  What nodes it holds is stated by `RenderCount`.
   */
  function Render<D>(p: Props<D>, u: Utils<D>): (card: Element<Tag>)
    ensures var onSale := Js.IsNumber(p.salePrice);
            var isNew := !Js.IsNumber(p.salePrice) && u.isNewShoe(p.releaseDate);
            Texts(card)
              == [p.name, u.formatPrice(p.price), u.pluralize("Color", p.numOfColors)]
                 + (if onSale then [u.formatPrice(p.price)] else [])
                 + (if isNew then ["Just Released!"] else [])
                 + (if onSale then ["Sale"] else [])
  {
    var variant := Classify(p.salePrice, p.releaseDate, u.isNewShoe);
    var onSale := Js.IsNumber(p.salePrice);
    assert variant.OnSale? == onSale;
    assert variant.NewRelease? == (!onSale && u.isNewShoe(p.releaseDate));
    CardTexts(NameRow(p, u, variant), ColorRow(p, u, variant), Badges(variant),
      p.name, u.formatPrice(p.price), u.pluralize("Color", p.numOfColors),
      if onSale then [u.formatPrice(p.price)] else [],
      if variant.NewRelease? then ["Just Released!"] else [],
      if onSale then ["Sale"] else []);
    Node(Link, [
      Node(Wrapper, [
        Node(ImageWrapper, [Node(Image, [])]),
        Node(Spacer, []),
        NameRow(p, u, variant),
        ColorRow(p, u, variant)
      ] + Badges(variant))
    ])
  }

  function Indicator(b: bool): nat {
    if b then 1 else 0
  }

  lemma NameRowCount<D>(p: Props<D>, u: Utils<D>, variant: Variant, t: Tag)
    ensures Count(NameRow(p, u, variant), t)
      == Indicator(t == Row) + Indicator(t == Name) + Indicator(t == Price(PriceDecoration(variant.Name())))
  {
    PairCount(Node(Name, [Text(p.name)]),
      Node(Price(PriceDecoration(variant.Name())), [Text(u.formatPrice(p.price))]), t);
    LabelCount(Name, p.name, t);
    LabelCount(Price(PriceDecoration(variant.Name())), u.formatPrice(p.price), t);
  }

  lemma ColorRowCount<D>(p: Props<D>, u: Utils<D>, variant: Variant, t: Tag)
    ensures Count(ColorRow(p, u, variant), t)
      == Indicator(t == Row) + Indicator(t == ColorInfo)
         + Indicator(variant.Name() == "on-sale" && t == SalePrice)
  {
    var colors := Node(ColorInfo, [Text(u.pluralize("Color", p.numOfColors))]);
    var sale := Node(SalePrice, [Text(u.formatPrice(p.price))]);
    CountInAppend([colors], When(variant.Name() == "on-sale", sale), t);
    SingleCount(colors, t);
    LabelCount(ColorInfo, u.pluralize("Color", p.numOfColors), t);
    LabelCount(SalePrice, u.formatPrice(p.price), t);
  }

  lemma BadgesCount(variant: Variant, t: Tag)
    ensures CountIn(Badges(variant), t)
      == Indicator(variant.Name() == "new-release" && t == JustReleased)
         + Indicator(variant.Name() == "on-sale" && t == OnSaleBadge)
  {
    var newBadge := Node(JustReleased, [Text("Just Released!")]);
    var saleBadge := Node(OnSaleBadge, [Text("Sale")]);
    CountInAppend(When(variant.Name() == "new-release", newBadge), When(variant.Name() == "on-sale", saleBadge), t);
    LabelCount(JustReleased, "Just Released!", t);
    LabelCount(OnSaleBadge, "Sale", t);
  }

  /** The card's count of a tag, split along its parts. */
  lemma RenderCountByPart<D>(p: Props<D>, u: Utils<D>, t: Tag)
    ensures var variant := Classify(p.salePrice, p.releaseDate, u.isNewShoe);
            Count(Render(p, u), t)
              == Indicator(t == Link) + Indicator(t == Wrapper) + Indicator(t == ImageWrapper)
                 + Indicator(t == Image) + Indicator(t == Spacer)
                 + Count(NameRow(p, u, variant), t) + Count(ColorRow(p, u, variant), t)
                 + CountIn(Badges(variant), t)
  {
    var variant := Classify(p.salePrice, p.releaseDate, u.isNewShoe);
    FrameCount(Link, Wrapper, Node(ImageWrapper, [Node(Image, [])]), Node(Spacer, []),
      NameRow(p, u, variant), ColorRow(p, u, variant), Badges(variant), t);
    NestedEmpty(ImageWrapper, Image, t);
  }

  /**
   * How many nodes of each kind the card holds: one of each fixed part (two
   * rows), one `Price` span styled after the variant, and each optional part
   * exactly when its condition holds.
   */
  lemma RenderCount<D>(p: Props<D>, u: Utils<D>, t: Tag)
    ensures var variant := Classify(p.salePrice, p.releaseDate, u.isNewShoe);
            var onSale := variant.Name() == "on-sale";
            var isNew := variant.Name() == "new-release";
            Count(Render(p, u), t)
              == Indicator(t == Link) + Indicator(t == Wrapper) + Indicator(t == ImageWrapper)
                 + Indicator(t == Image) + Indicator(t == Spacer) + 2 * Indicator(t == Row)
                 + Indicator(t == Name) + Indicator(t == Price(PriceDecoration(variant.Name())))
                 + Indicator(t == ColorInfo) + Indicator(onSale && t == SalePrice)
                 + Indicator(isNew && t == JustReleased) + Indicator(onSale && t == OnSaleBadge)
  {
    var variant := Classify(p.salePrice, p.releaseDate, u.isNewShoe);
    RenderCountByPart(p, u, t);
    NameRowCount(p, u, variant, t);
    ColorRowCount(p, u, variant, t);
    BadgesCount(variant, t);
  }

  /**
   * The rendered tree agrees with the flags: the sale-price span, each badge
   * and the struck-through price appear exactly once when their flag is set
   * and not at all otherwise, and the regular price appears exactly once.
   */
  lemma RenderMatchesFlags<D>(p: Props<D>, u: Utils<D>)
    ensures var f := RenderFlags(Classify(p.salePrice, p.releaseDate, u.isNewShoe));
            var card := Render(p, u);
            && Count(card, SalePrice) == Indicator(f.salePriceShown)
            && Count(card, OnSaleBadge) == Indicator(f.saleBadge)
            && Count(card, JustReleased) == Indicator(f.justReleasedBadge)
            && Count(card, Price(LineThrough)) == Indicator(f.regularPriceStruck)
            && Count(card, Price(NoDecoration)) == Indicator(!f.regularPriceStruck)
  {
    var f := RenderFlags(Classify(p.salePrice, p.releaseDate, u.isNewShoe));
    var card := Render(p, u);
    assert Count(card, SalePrice) == Indicator(f.salePriceShown) by {
      RenderCount(p, u, SalePrice);
    }
    assert Count(card, OnSaleBadge) == Indicator(f.saleBadge) by {
      RenderCount(p, u, OnSaleBadge);
    }
    assert Count(card, JustReleased) == Indicator(f.justReleasedBadge) by {
      RenderCount(p, u, JustReleased);
    }
    assert Count(card, Price(LineThrough)) == Indicator(f.regularPriceStruck) by {
      RenderCount(p, u, Price(LineThrough));
    }
    assert Count(card, Price(NoDecoration)) == Indicator(!f.regularPriceStruck) by {
      RenderCount(p, u, Price(NoDecoration));
    }
  }

  /** The two badges never appear together, and the sale-price span comes with the "Sale" badge. */
  lemma BadgesExclusive<D>(p: Props<D>, u: Utils<D>)
    ensures Count(Render(p, u), JustReleased) + Count(Render(p, u), OnSaleBadge) <= 1
    ensures Count(Render(p, u), SalePrice) == Count(Render(p, u), OnSaleBadge)
  {
    RenderMatchesFlags(p, u);
  }

  /**
   * The card holds exactly one regular-price span, and it is struck through
   * exactly when the shoe is on sale.
   */
  lemma PriceStruckIffOnSale<D>(p: Props<D>, u: Utils<D>)
    ensures var onSale := Js.IsNumber(p.salePrice);
            && Count(Render(p, u), Price(LineThrough)) == Indicator(onSale)
            && Count(Render(p, u), Price(NoDecoration)) == Indicator(!onSale)
  {
    RenderMatchesFlags(p, u);
  }

  /** Sale dominates recency: a numeric sale price wins over a recent release. */
  lemma SaleDominatesRecency<D>(salePrice: Js.Value, releaseDate: D, isNewShoe: D -> bool)
    requires Js.IsNumber(salePrice) && isNewShoe(releaseDate)
    ensures Classify(salePrice, releaseDate, isNewShoe) == OnSale
  {
  }

  /**
   * A sale price of zero makes the card on sale, although a truthiness test
   * would have rejected it.
   */
  lemma ZeroSalePriceIsOnSale<D>(releaseDate: D, isNewShoe: D -> bool)
    ensures !Js.Truthy(Js.Num(Js.Finite(0.0)))
    ensures Classify(Js.Num(Js.Finite(0.0)), releaseDate, isNewShoe) == OnSale
  {
  }

  /**
   * When the sale price is a number, `isNewShoe` is never consulted: the
   * variant is the same for every release date and every recency test.
   */
  lemma OnSaleIgnoresReleaseDate<D>(n: Js.Number, d1: D, d2: D, isNew1: D -> bool, isNew2: D -> bool)
    ensures Classify(Js.Num(n), d1, isNew1) == Classify(Js.Num(n), d2, isNew2) == OnSale
  {
  }

  /** The card never shows the amount of the sale price: any two numeric sale prices render alike. */
  lemma SaleAmountNotRendered<D>(p: Props<D>, u: Utils<D>, a: Js.Number, b: Js.Number)
    ensures Render(p.(salePrice := Js.Num(a)), u) == Render(p.(salePrice := Js.Num(b)), u)
  {
  }
}
