/**
  The value column: chooses how a variable's value is displayed from the
  tagged value information attached to its row.
 */
module ValueCell {
  import opened Options

  /** The tag of the value information. */
  datatype ValueKind = ColorKind | ReferenceKind | NumberKind | StringKind | BooleanKind
    /** a tag outside the five above */
    | OtherKind(tag: string)

  /** The untyped `value` field, by the script value it can hold. */
  datatype JsValue =
    | Undefined
    | Null
    | Bool(b: bool)
    | Num(n: real)
    | Str(s: string)
    /** any object, such as an RGB triple */
    | Obj

  /** The value information of one row. */
  datatype ValueInfo = ValueInfo(
    kind: ValueKind,
    value: JsValue,
    hex: Option<string>,
    referenceId: Option<string>,
    resolvedHex: Option<string>)

  /** What the cell renders. */
  datatype Display =
    /** the `-` placeholder */
    | Placeholder
    /** a swatch painted `background` next to the caption text */
    | ColorSwatch(background: string, caption: Option<string>)
    /** a chip naming the referenced variable, with a swatch when one is shown */
    | ReferenceChip(swatch: Option<string>, name: JsValue)
    | NumberText(text: JsValue)
    /** the value between double quotes */
    | QuotedText(inner: JsValue)
    /** `word`, coloured as success when `positive` */
    | BooleanText(word: string, positive: bool)

  /** The script's truthiness (NaN and big integers are not modelled). */
  predicate Truthy(v: JsValue) {
    match v
    case Undefined => false
    case Null => false
    case Bool(b) => b
    case Num(n) => n != 0.0
    case Str(s) => s != ""
    case Obj => true
  }

  /** `s || fallback` for an optional string. */
  function OrElse(s: Option<string>, fallback: string): string {
    if s.Some? && s.value != "" then s.value else fallback
  }

  predicate EndsWith(s: string, suffix: string) {
    |suffix| <= |s| && s[|s| - |suffix|..] == suffix
  }

  /** `text.replace(/\.00$/, '')`: drops one trailing ".00" and nothing else. */
  function StripZeroCents(text: string): (r: string)
    ensures EndsWith(text, ".00") ==> r + ".00" == text
    ensures !EndsWith(text, ".00") ==> r == text
  {
    if EndsWith(text, ".00") then text[..|text| - 3] else text
  }

  /**
    The display for a row: a truthy value is shown in the form its tag
    names, one form per tag. `toFixed2` renders a number with two decimals; it
    is the script's own formatting and is taken as given.
   */
  function ValueDisplay(info: Option<ValueInfo>, resolvedType: string, toFixed2: real -> string): (r: Display)
    ensures r.ColorSwatch? <==> info.Some? && Truthy(info.value.value) && info.value.kind.ColorKind?
    ensures r.ReferenceChip? <==> info.Some? && Truthy(info.value.value) && info.value.kind.ReferenceKind?
    ensures r.NumberText? <==> info.Some? && Truthy(info.value.value) && info.value.kind.NumberKind?
    ensures r.QuotedText? <==> info.Some? && Truthy(info.value.value) && info.value.kind.StringKind?
    ensures r.BooleanText? <==> info.Some? && Truthy(info.value.value) && info.value.kind.BooleanKind?
  {
    if info.None? || !Truthy(info.value.value) then Placeholder
    else
      var v := info.value;
      match v.kind
      case ColorKind => ColorSwatch(OrElse(v.hex, "#000"), v.hex)
      case ReferenceKind =>
        ReferenceChip(
          if resolvedType == "COLOR" && v.resolvedHex.Some? && v.resolvedHex.value != ""
          then v.resolvedHex else None,
          v.value)
      case NumberKind =>
        NumberText(if v.value.Num? then Str(StripZeroCents(toFixed2(v.value.n))) else v.value)
      case StringKind => QuotedText(v.value)
      case BooleanKind => BooleanText(if Truthy(v.value) then "true" else "false", Truthy(v.value))
      case OtherKind(_) => Placeholder
  }

  /** The placeholder shows exactly when there is no information, its value is falsy, or its tag is unknown. */
  lemma PlaceholderExactly(info: Option<ValueInfo>, resolvedType: string, toFixed2: real -> string)
    ensures ValueDisplay(info, resolvedType, toFixed2) == Placeholder <==>
      info.None? || !Truthy(info.value.value) || info.value.kind.OtherKind?
  {
  }

  /** Because of the falsy guard, `false`, `0` and `""` all show the placeholder, whatever their tag. */
  lemma FalsyValuesShowPlaceholder(kind: ValueKind, v: JsValue, resolvedType: string, toFixed2: real -> string,
                                   hex: Option<string>, referenceId: Option<string>, resolvedHex: Option<string>)
    requires v == Bool(false) || v == Num(0.0) || v == Str("")
    ensures ValueDisplay(Some(ValueInfo(kind, v, hex, referenceId, resolvedHex)), resolvedType, toFixed2) == Placeholder
  {
  }

  /** The boolean branch is reached only with a truthy value, so it can only ever show "true". */
  lemma BooleanShowsOnlyTrue(info: Option<ValueInfo>, resolvedType: string, toFixed2: real -> string)
    ensures ValueDisplay(info, resolvedType, toFixed2).BooleanText? ==>
      ValueDisplay(info, resolvedType, toFixed2) == BooleanText("true", true)
  {
  }

  /** A color shows its hex as the caption and paints the swatch with it, or with "#000" when it is missing or empty. */
  lemma ColorSwatchFallback(info: ValueInfo, resolvedType: string, toFixed2: real -> string)
    requires info.kind == ColorKind && Truthy(info.value)
    ensures ValueDisplay(Some(info), resolvedType, toFixed2).ColorSwatch?
    ensures ValueDisplay(Some(info), resolvedType, toFixed2).caption == info.hex
    ensures ValueDisplay(Some(info), resolvedType, toFixed2).background ==
      (if info.hex.None? || info.hex.value == "" then "#000" else info.hex.value)
  {
  }

  /**
    A reference always shows the referenced name, and shows a swatch exactly
    when the row's type is COLOR and a non-empty resolved hex is present.
   */
  lemma ReferenceSwatchExactly(info: ValueInfo, resolvedType: string, toFixed2: real -> string)
    requires info.kind == ReferenceKind && Truthy(info.value)
    ensures ValueDisplay(Some(info), resolvedType, toFixed2).ReferenceChip?
    ensures ValueDisplay(Some(info), resolvedType, toFixed2).name == info.value
    ensures ValueDisplay(Some(info), resolvedType, toFixed2).swatch.Some? <==>
      resolvedType == "COLOR" && info.resolvedHex.Some? && info.resolvedHex.value != ""
    ensures ValueDisplay(Some(info), resolvedType, toFixed2).swatch.Some? ==>
      ValueDisplay(Some(info), resolvedType, toFixed2).swatch == info.resolvedHex
  {
  }

  /**
    A non-zero number shows its two-decimal text with a trailing ".00"
    removed; a number-tagged value that is not a number is shown as it is.
   */
  lemma NumberShowsStrippedText(info: ValueInfo, resolvedType: string, toFixed2: real -> string)
    requires info.kind == NumberKind && Truthy(info.value)
    ensures info.value.Num? ==>
      var text := toFixed2(info.value.n);
      ValueDisplay(Some(info), resolvedType, toFixed2) == NumberText(Str(StripZeroCents(text)))
    ensures !info.value.Num? ==> ValueDisplay(Some(info), resolvedType, toFixed2) == NumberText(info.value)
  {
  }

  /** A string is shown between double quotes. */
  lemma StringQuoted(info: ValueInfo, resolvedType: string, toFixed2: real -> string)
    requires info.kind == StringKind && Truthy(info.value)
    ensures ValueDisplay(Some(info), resolvedType, toFixed2) == QuotedText(info.value)
  {
  }

  /** The two-decimal texts of 1 and 1.5 display as "1" and "1.50". */
  lemma StripExamples()
    ensures StripZeroCents("1.00") == "1"
    ensures StripZeroCents("1.50") == "1.50"
    ensures StripZeroCents("100") == "100"
  {
  }
}
