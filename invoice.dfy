/**
 * The invoice text. The order form, two formatted dates and the shop
 * configuration are interpolated into one fixed multi-line template.
 *
 * `MessageLines` is the list of the message's lines and `GeneratedMessage`
 * joins them with newlines. `MessageBlocks` proves that this equals the
 * template as the app concatenates it: the header lines, `MainKeyPart`,
 * `SmartKeySection` and the footer lines, with the main-key block and the
 * optional smart-key section built as strings. Every property of the layout
 * is then stated about the lines.
 */
module Invoice {
  import opened Text
  import opened Calendar
  import Preview

  // ---------------------------------------------------------------------------
  // Configuration and form data
  // ---------------------------------------------------------------------------

  datatype ShopConfig = ShopConfig(
    shopName: string,
    kpayName: string,
    kpayNumber: string,
    waveName: string,
    waveNumber: string,
    phoneNumber: string,
    telegramUser: string,
    shopHours: string)

  const SHOP_CONFIG: ShopConfig := ShopConfig(
    "VPN Invoice", "Htet Aung Lin", "09964520268", "Htet Aung Lin",
    "09964520268", "09964520268", "@nolan112002", "6:00 PM - 10:00 PM")

  datatype DurationOption = DurationOption(displayLabel: string, months: nat)

  /** The duration menu, in the order it is shown. */
  const DURATIONS: seq<DurationOption> := [
    DurationOption("1 Month", 1),
    DurationOption("2 Months", 2),
    DurationOption("3 Months", 3),
    DurationOption("6 Months", 6),
    DurationOption("1 Year", 12)
  ]

  /**
   * The duration menu offers ever longer terms, starting at one month (the
   * default) and ending at one year, and every label below a year names its
   * own number of months.
   */
  lemma DurationMenu()
    ensures DURATIONS[0].months == 1
    ensures DURATIONS[|DURATIONS| - 1] == DurationOption("1 Year", 12)
    ensures forall i, j :: 0 <= i < j < |DURATIONS| ==> 0 < DURATIONS[i].months < DURATIONS[j].months
    ensures forall i :: 0 <= i < |DURATIONS| && DURATIONS[i].months < 12 ==>
      DURATIONS[i].displayLabel ==
        NatToString(DURATIONS[i].months) + (if DURATIONS[i].months == 1 then " Month" else " Months")
  {
    assert NatToString(1) == "1" && NatToString(2) == "2";
    assert NatToString(3) == "3" && NatToString(6) == "6";
  }

  /** The positions of the duration menu: exactly the indices `DURATIONS` is defined at. */
  type DurationIndex = i: int | 0 <= i < |DURATIONS|

  /** The order form. `purchaseDate` holds the date input's `YYYY-MM-DD` text. */
  datatype FormData = FormData(
    username: string,
    purchaseDate: string,
    durationIdx: DurationIndex,
    dataPlan: string,
    outlineKey: string,
    smartKey: string)

  // ---------------------------------------------------------------------------
  // Fixed text of the template
  //
  // The longer literals below are written as concatenations of short chunks,
  // and each `...Plain` lemma checks its literal chunk by chunk. The text is
  // the same as one literal; the chunking only keeps the verifier from
  // unfolding a long string character by character.
  // ---------------------------------------------------------------------------

  const THANKS_LINE: string :=
    "🎉 " + "**ဝယ်ယူအားပေ" + "းမှုအတွက် " + "ကျေးဇူးအထူးတ" + "င်ပါတယ်ခင်ဗျ" + "ာ** 🙏"
  const USERNAME_LABEL: string := "👤 " + "**" + "Username:" + "**" + " "
  const START_LABEL: string := "📅 **Start Date:** "
  const EXPIRE_LABEL: string := "🛑 **Expire Date:** "
  const DATA_PLAN_LABEL: string := "📦 **Data Plan:** "
  const DATA_PLAN_UNIT: string := " GB"
  const KEY_HEADING: string :=
    "👇 **Outline " + "Key ကို " + "ယူရန် Copy " + "နှိပ်ပါ** 👇"
  const SMART_KEY_HEADING: string :=
    "👇 **Smart " + "Key (Data " + "ကြည့်ရန် ဤ " + "Key " + "ကိုသုံးပါ)**" + " 👇"
  const KPAY_HEADING: string := "💸 **ငွေလွှဲရန် (KPay):**"
  const SEPARATOR_LINE: string := Preview.SEPARATOR_RUN
  const HOURS_LABEL: string := "⏰ **ဆိုင်ဖွင့်ချိန်:** "
  const HOURS_SUFFIX: string := " အထိ"
  const HELP_PREFIX: string := "🆘 အကူအညီလိုပါက **"
  const HELP_SUFFIX: string :=
    "** သို့ " + "ဆက်သွယ်နိုင်" + "ပါသည်။"
  const CALL_PREFIX: string :=
    "⚡ ၁၀ " + "မိနစ်အတွင်း " + "စာမပြန်ပါက " + "**"
  const CALL_SUFFIX: string :=
    "** သို့ " + "ဖုန်းခေါ်ဆို" + "နိုင်ပါသည်။"
  const CLOSING_LINE: string :=
    "နောက်လည်း " + "လာရောက်အားပေ" + "းဖို့ " + "ဖိတ်ခေါ်ပါတယ" + "်ခင်ဗျာ။ ❤️"
  const HOUR_WORD: string := "နာရီ"
  const USERNAME_PLACEHOLDER: string := "[Username]"
  const DATA_PLAN_PLACEHOLDER: string := "0"
  const MAIN_KEY_PLACEHOLDER: string := "[MAIN KEY]"
  /** The fence token the preview recognises, which the main-key block is wrapped in. */
  const CODE_FENCE: string := Preview.FENCE

  /**
   * `c` occurs in none of the fixed text that shares a line with
   * interpolated data or stands on a line of its own.
   */
  predicate FixedTextAvoids(c: char) {
    && c !in THANKS_LINE
    && c !in USERNAME_LABEL
    && c !in START_LABEL
    && c !in EXPIRE_LABEL
    && c !in DATA_PLAN_LABEL
    && c !in DATA_PLAN_UNIT
    && c !in KEY_HEADING
    && c !in SMART_KEY_HEADING
    && c !in KPAY_HEADING
    && c !in SEPARATOR_LINE
    && c !in HOURS_LABEL
    && c !in HOURS_SUFFIX
    && c !in HELP_PREFIX
    && c !in HELP_SUFFIX
    && c !in CALL_PREFIX
    && c !in CALL_SUFFIX
    && c !in CLOSING_LINE
    && c !in HOUR_WORD
    && c !in USERNAME_PLACEHOLDER && c !in DATA_PLAN_PLACEHOLDER && c !in MAIN_KEY_PLACEHOLDER
    && c !in " (" && c !in ")"
  }

  lemma ThanksLinePlain(s: string, c: char)
    requires s == THANKS_LINE && (c == '\n' || c == '`')
    ensures c !in s
  {
    var p0, p1, p2, p3, p4, p5 := "🎉 ", "**ဝယ်ယူအားပေ", "းမှုအတွက် ", "ကျေးဇူးအထူးတ", "င်ပါတယ်ခင်ဗျ", "ာ** 🙏";
    assert c !in p0 && c !in p1 && c !in p2 && c !in p3 && c !in p4 && c !in p5;
  }

  lemma UsernameLabelPlain(s: string, c: char)
    requires s == USERNAME_LABEL && (c == '\n' || c == '`')
    ensures c !in s
  {
    var p0, p1, p2, p3, p4 := "👤 ", "**", "Username:", "**", " ";
    assert c !in p0 && c !in p1 && c !in p2 && c !in p3 && c !in p4;
  }

  lemma StartLabelPlain(s: string, c: char)
    requires s == START_LABEL && (c == '\n' || c == '`')
    ensures c !in s
  {
    var p0 := "📅 **Start Date:** ";
    assert c !in p0;
  }

  lemma ExpireLabelPlain(s: string, c: char)
    requires s == EXPIRE_LABEL && (c == '\n' || c == '`')
    ensures c !in s
  {
    var p0 := "🛑 **Expire Date:** ";
    assert c !in p0;
  }

  lemma DataPlanLabelPlain(s: string, c: char)
    requires s == DATA_PLAN_LABEL && (c == '\n' || c == '`')
    ensures c !in s
  {
    var p0 := "📦 **Data Plan:** ";
    assert c !in p0;
  }

  lemma DataPlanUnitPlain(s: string, c: char)
    requires s == DATA_PLAN_UNIT && (c == '\n' || c == '`')
    ensures c !in s
  {
    var p0 := " GB";
    assert c !in p0;
  }

  lemma KeyHeadingPlain(s: string, c: char)
    requires s == KEY_HEADING && (c == '\n' || c == '`')
    ensures c !in s
  {
    var p0, p1, p2, p3 := "👇 **Outline ", "Key ကို ", "ယူရန် Copy ", "နှိပ်ပါ** 👇";
    assert c !in p0 && c !in p1 && c !in p2 && c !in p3;
  }

  lemma SmartKeyHeadingPlain(s: string, c: char)
    requires s == SMART_KEY_HEADING && (c == '\n' || c == '`')
    ensures c !in s
  {
    var p0, p1, p2, p3, p4, p5 := "👇 **Smart ", "Key (Data ", "ကြည့်ရန် ဤ ", "Key ", "ကိုသုံးပါ)**", " 👇";
    assert c !in p0 && c !in p1 && c !in p2 && c !in p3 && c !in p4 && c !in p5;
  }

  lemma KpayHeadingPlain(s: string, c: char)
    requires s == KPAY_HEADING && (c == '\n' || c == '`')
    ensures c !in s
  {
    var p0 := "💸 **ငွေလွှဲရန် (KPay):**";
    assert c !in p0;
  }

  lemma SeparatorLinePlain(s: string, c: char)
    requires s == SEPARATOR_LINE && (c == '\n' || c == '`')
    ensures c !in s
  {
    var p0 := "-----------------------------";
    assert c !in p0;
  }

  lemma HoursLabelPlain(s: string, c: char)
    requires s == HOURS_LABEL && (c == '\n' || c == '`')
    ensures c !in s
  {
    var p0 := "⏰ **ဆိုင်ဖွင့်ချိန်:** ";
    assert c !in p0;
  }

  lemma HoursSuffixPlain(s: string, c: char)
    requires s == HOURS_SUFFIX && (c == '\n' || c == '`')
    ensures c !in s
  {
    var p0 := " အထိ";
    assert c !in p0;
  }

  lemma HelpPrefixPlain(s: string, c: char)
    requires s == HELP_PREFIX && (c == '\n' || c == '`')
    ensures c !in s
  {
    var p0 := "🆘 အကူအညီလိုပါက **";
    assert c !in p0;
  }

  lemma HelpSuffixPlain(s: string, c: char)
    requires s == HELP_SUFFIX && (c == '\n' || c == '`')
    ensures c !in s
  {
    var p0, p1, p2 := "** သို့ ", "ဆက်သွယ်နိုင်", "ပါသည်။";
    assert c !in p0 && c !in p1 && c !in p2;
  }

  lemma CallPrefixPlain(s: string, c: char)
    requires s == CALL_PREFIX && (c == '\n' || c == '`')
    ensures c !in s
  {
    var p0, p1, p2, p3 := "⚡ ၁၀ ", "မိနစ်အတွင်း ", "စာမပြန်ပါက ", "**";
    assert c !in p0 && c !in p1 && c !in p2 && c !in p3;
  }

  lemma CallSuffixPlain(s: string, c: char)
    requires s == CALL_SUFFIX && (c == '\n' || c == '`')
    ensures c !in s
  {
    var p0, p1, p2 := "** သို့ ", "ဖုန်းခေါ်ဆို", "နိုင်ပါသည်။";
    assert c !in p0 && c !in p1 && c !in p2;
  }

  lemma ClosingLinePlain(s: string, c: char)
    requires s == CLOSING_LINE && (c == '\n' || c == '`')
    ensures c !in s
  {
    var p0, p1, p2, p3, p4 := "နောက်လည်း ", "လာရောက်အားပေ", "းဖို့ ", "ဖိတ်ခေါ်ပါတယ", "်ခင်ဗျာ။ ❤️";
    assert c !in p0 && c !in p1 && c !in p2 && c !in p3 && c !in p4;
  }

  lemma HourWordPlain(s: string, c: char)
    requires s == HOUR_WORD && (c == '\n' || c == '`')
    ensures c !in s
  {
    var p0 := "နာရီ";
    assert c !in p0;
  }

  /** The fixed lines and labels hold no line break and no backtick. */
  lemma LongTextPlain(c: char)
    requires c == '\n' || c == '`'
    ensures c !in THANKS_LINE
      && c !in USERNAME_LABEL
      && c !in START_LABEL
      && c !in EXPIRE_LABEL
      && c !in DATA_PLAN_LABEL
      && c !in DATA_PLAN_UNIT
      && c !in KEY_HEADING
      && c !in SMART_KEY_HEADING
      && c !in KPAY_HEADING
      && c !in SEPARATOR_LINE
      && c !in HOURS_LABEL
      && c !in HOURS_SUFFIX
      && c !in HELP_PREFIX
      && c !in HELP_SUFFIX
      && c !in CALL_PREFIX
      && c !in CALL_SUFFIX
      && c !in CLOSING_LINE
      && c !in HOUR_WORD
  {
    ThanksLinePlain(THANKS_LINE, c);
    UsernameLabelPlain(USERNAME_LABEL, c);
    StartLabelPlain(START_LABEL, c);
    ExpireLabelPlain(EXPIRE_LABEL, c);
    DataPlanLabelPlain(DATA_PLAN_LABEL, c);
    DataPlanUnitPlain(DATA_PLAN_UNIT, c);
    KeyHeadingPlain(KEY_HEADING, c);
    SmartKeyHeadingPlain(SMART_KEY_HEADING, c);
    KpayHeadingPlain(KPAY_HEADING, c);
    SeparatorLinePlain(SEPARATOR_LINE, c);
    HoursLabelPlain(HOURS_LABEL, c);
    HoursSuffixPlain(HOURS_SUFFIX, c);
    HelpPrefixPlain(HELP_PREFIX, c);
    HelpSuffixPlain(HELP_SUFFIX, c);
    CallPrefixPlain(CALL_PREFIX, c);
    CallSuffixPlain(CALL_SUFFIX, c);
    ClosingLinePlain(CLOSING_LINE, c);
    HourWordPlain(HOUR_WORD, c);
  }

  /** Nor do the placeholders and the parentheses around the account name. */
  lemma ShortTextPlain(c: char)
    requires c == '\n' || c == '`'
    ensures c !in USERNAME_PLACEHOLDER
      && c !in DATA_PLAN_PLACEHOLDER
      && c !in MAIN_KEY_PLACEHOLDER
      && c !in " ("
      && c !in ")"
  {
  }

  /** No fixed text breaks a line or holds a backtick. */
  lemma FixedTextPlain()
    ensures FixedTextAvoids('\n') && FixedTextAvoids('`')
  {
    LongTextPlain('\n');
    ShortTextPlain('\n');
    LongTextPlain('`');
    ShortTextPlain('`');
  }

  // ---------------------------------------------------------------------------
  // The template
  // ---------------------------------------------------------------------------

  /** JavaScript's `s || fallback` on a string: the empty string is falsy. */
  function OrElse(s: string, fallback: string): string {
    if s == "" then fallback else s
  }

  /** The expiry of the order, as ISO text. */
  function ExpireDateRaw(form: FormData): string {
    CalculateExpireDate(form.purchaseDate, DURATIONS[form.durationIdx].months)
  }

  /** The opening hours with `PM` and `AM` replaced by the hour word and `:00` dropped. */
  function FormattedHours(hours: string): string {
    ReplaceAll(ReplaceAll(ReplaceAll(hours, "PM", HOUR_WORD), "AM", HOUR_WORD), ":00", "")
  }

  /** The line shown between the two fences. */
  function MainKeyText(outlineKey: string): string {
    if outlineKey != "" then Trim(outlineKey) else MAIN_KEY_PLACEHOLDER
  }

  /** The main-key block as the template builds it: a string of three lines. */
  function MainKeyPart(outlineKey: string): string {
    if outlineKey != "" then CODE_FENCE + "\n" + Trim(outlineKey) + "\n" + CODE_FENCE
    else CODE_FENCE + "\n" + MAIN_KEY_PLACEHOLDER + "\n" + CODE_FENCE
  }

  /** The condition under which the smart-key section is written. */
  predicate HasSmartKey(smartKey: string) {
    smartKey != "" && Trim(smartKey) != ""
  }

  /** The smart-key section as the template builds it: empty, or a newline, the heading and the inline-code key. */
  function SmartKeySection(smartKey: string): string {
    if HasSmartKey(smartKey) then "\n" + SMART_KEY_HEADING + "\n" + "`" + Trim(smartKey) + "`"
    else ""
  }

  /** The message the application shows and copies: the template over `SHOP_CONFIG`. */
  function InvoiceMessage(form: FormData): string {
    GeneratedMessage(form, SHOP_CONFIG)
  }

  // ---------------------------------------------------------------------------
  // The same message as a list of lines
  // ---------------------------------------------------------------------------

  function UsernameLine(form: FormData): string {
    USERNAME_LABEL + OrElse(form.username, USERNAME_PLACEHOLDER)
  }

  function StartDateLine(form: FormData): string {
    START_LABEL + FormatDateForDisplay(form.purchaseDate)
  }

  function ExpireDateLine(form: FormData): string {
    EXPIRE_LABEL + FormatDateForDisplay(ExpireDateRaw(form))
  }

  function DataPlanLine(form: FormData): string {
    DATA_PLAN_LABEL + OrElse(form.dataPlan, DATA_PLAN_PLACEHOLDER) + DATA_PLAN_UNIT
  }

  function HeaderLines(form: FormData): seq<string> {
    [THANKS_LINE, "", UsernameLine(form), StartDateLine(form), ExpireDateLine(form), DataPlanLine(form), "", KEY_HEADING]
  }

  function MainKeyLines(outlineKey: string): seq<string> {
    [CODE_FENCE, MainKeyText(outlineKey), CODE_FENCE]
  }

  /** The smart key as inline code: the trimmed key between two backticks. */
  function SmartKeyCodeLine(smartKey: string): string {
    "`" + Trim(smartKey) + "`"
  }

  function SmartKeyLines(smartKey: string): seq<string> {
    if HasSmartKey(smartKey) then ["", SMART_KEY_HEADING, SmartKeyCodeLine(smartKey)] else [""]
  }

  function AccountLine(shop: ShopConfig): string {
    shop.kpayNumber + " (" + shop.kpayName + ")"
  }

  function HoursLine(shop: ShopConfig): string {
    HOURS_LABEL + FormattedHours(shop.shopHours) + HOURS_SUFFIX
  }

  function HelpLine(shop: ShopConfig): string {
    HELP_PREFIX + shop.telegramUser + HELP_SUFFIX
  }

  function CallLine(shop: ShopConfig): string {
    CALL_PREFIX + shop.phoneNumber + CALL_SUFFIX
  }

  function FooterLines(shop: ShopConfig): seq<string> {
    ["", KPAY_HEADING, AccountLine(shop), "", SEPARATOR_LINE, HoursLine(shop), HelpLine(shop), CallLine(shop), "", CLOSING_LINE]
  }

  /** The lines of the message: 22 of them, or 24 when the smart-key section is written. */
  function MessageLines(form: FormData, shop: ShopConfig): (lines: seq<string>)
    ensures |lines| == if HasSmartKey(form.smartKey) then 24 else 22
  {
    HeaderLines(form) + MainKeyLines(form.outlineKey) + SmartKeyLines(form.smartKey) + FooterLines(shop)
  }

  /** `generatedMessage`: the lines of the template joined by newlines. */
  function GeneratedMessage(form: FormData, shop: ShopConfig): string {
    Join(MessageLines(form, shop), "\n")
  }

  /** Index of the separator line, which moves down by two when the smart-key section is written. */
  function SeparatorIndex(form: FormData): nat {
    if HasSmartKey(form.smartKey) then 18 else 16
  }

  lemma MainKeyPartLines(outlineKey: string)
    ensures MainKeyPart(outlineKey) == Join(MainKeyLines(outlineKey), "\n")
  {
    JoinThree(MainKeyLines(outlineKey), "\n");
  }

  /** Three lines of which the first is empty: the text opens with a newline. */
  lemma JoinAfterEmpty(h: string, t: string)
    ensures Join(["", h, t], "\n") == "\n" + h + "\n" + t
  {
    JoinThree(["", h, t], "\n");
  }

  lemma SmartKeySectionLines(smartKey: string)
    ensures SmartKeySection(smartKey) == Join(SmartKeyLines(smartKey), "\n")
  {
    if HasSmartKey(smartKey) {
      SmartKeySectionWritten(smartKey);
    } else {
      assert SmartKeyLines(smartKey) == [""];
    }
  }

  lemma SmartKeySectionWritten(smartKey: string)
    requires HasSmartKey(smartKey)
    ensures SmartKeySection(smartKey) == Join(SmartKeyLines(smartKey), "\n")
  {
    var h, t := SMART_KEY_HEADING, SmartKeyCodeLine(smartKey);
    JoinAfterEmpty(h, t);
    BackticksAfter("\n" + h + "\n", Trim(smartKey));
  }

  lemma BackticksAfter(pre: string, k: string)
    ensures pre + ("`" + k + "`") == pre + "`" + k + "`"
  {
  }

  /**
   * The template's block structure: the header lines, the main-key block and
   * the smart-key section as the template builds them as strings, then the
   * footer lines, each on its own line.
   */
  lemma MessageBlocks(form: FormData, shop: ShopConfig)
    ensures GeneratedMessage(form, shop) ==
      Join(HeaderLines(form), "\n") + "\n" + MainKeyPart(form.outlineKey) + "\n"
      + SmartKeySection(form.smartKey) + "\n" + Join(FooterLines(shop), "\n")
  {
    var h, m, s, f := HeaderLines(form), MainKeyLines(form.outlineKey), SmartKeyLines(form.smartKey), FooterLines(shop);
    assert MessageLines(form, shop) == ((h + m) + s) + f;
    JoinAppend(h, m, "\n");
    JoinAppend(h + m, s, "\n");
    JoinAppend(h + m + s, f, "\n");
    MainKeyPartLines(form.outlineKey);
    SmartKeySectionLines(form.smartKey);
  }
  // ---------------------------------------------------------------------------
  // Which characters can appear on which lines
  // ---------------------------------------------------------------------------

  /** `c` occurs in none of the interpolated form fields and shop settings. */
  predicate FieldsAvoid(form: FormData, shop: ShopConfig, c: char) {
    && c !in form.username && c !in form.purchaseDate && c !in form.dataPlan
    && c !in form.outlineKey && c !in form.smartKey
    && c !in shop.kpayNumber && c !in shop.kpayName && c !in shop.telegramUser
    && c !in shop.phoneNumber && c !in shop.shopHours
  }

  /**
   * The shop settings hold no line break and no backtick: interpolated into
   * the footer, they add no line and no code span to the message.
   */
  lemma ShopConfigPlain(shop: ShopConfig, c: char)
    requires shop == SHOP_CONFIG && (c == '\n' || c == '`')
    ensures c !in shop.shopName && c !in shop.waveName && c !in shop.waveNumber
    ensures c !in shop.kpayNumber && c !in shop.kpayName && c !in shop.telegramUser
    ensures c !in shop.phoneNumber && c !in shop.shopHours
  {
    ShopNamePlain(shop.shopName);
    HolderPlain(shop.kpayName);
    assert shop.waveName == shop.kpayName;
    NumberPlain(shop.kpayNumber);
    assert shop.waveNumber == shop.phoneNumber == shop.kpayNumber;
    TelegramPlain(shop.telegramUser);
    HoursPlain(shop.shopHours);
  }

  lemma ShopNamePlain(s: string)
    requires s == SHOP_CONFIG.shopName
    ensures '\n' !in s && '`' !in s
  {
    var p0, p1 := "VPN ", "Invoice";
    assert s == p0 + p1;
    assert '\n' !in p0 && '\n' !in p1 && '`' !in p0 && '`' !in p1;
  }

  lemma HolderPlain(s: string)
    requires s == SHOP_CONFIG.kpayName
    ensures '\n' !in s && '`' !in s
  {
    var p0, p1 := "Htet ", "Aung Lin";
    assert s == p0 + p1;
    assert '\n' !in p0 && '\n' !in p1 && '`' !in p0 && '`' !in p1;
  }

  lemma NumberPlain(s: string)
    requires s == SHOP_CONFIG.kpayNumber
    ensures '\n' !in s && '`' !in s
  {
    var p0, p1 := "09964", "520268";
    assert s == p0 + p1;
    assert '\n' !in p0 && '\n' !in p1 && '`' !in p0 && '`' !in p1;
  }

  lemma TelegramPlain(s: string)
    requires s == SHOP_CONFIG.telegramUser
    ensures '\n' !in s && '`' !in s
  {
    var p0, p1 := "@nolan", "112002";
    assert s == p0 + p1;
    assert '\n' !in p0 && '\n' !in p1 && '`' !in p0 && '`' !in p1;
  }

  lemma HoursPlain(s: string)
    requires s == SHOP_CONFIG.shopHours
    ensures '\n' !in s && '`' !in s
  {
    var p0, p1 := "6:00 PM", " - 10:00 PM";
    assert s == p0 + p1;
    assert '\n' !in p0 && '\n' !in p1 && '`' !in p0 && '`' !in p1;
  }

  /** `c` cannot be produced by the date helpers' output alphabet or fixed words. */
  predicate OutsideDateText(c: char) {
    !IsDigit(c) && c != '-' && c != '/' && c !in "undefined" && c !in DISPLAY_PLACEHOLDER
    && c !in INVALID_DATE_TEXT
  }

  /** The lines that carry code markup: the two fences and the smart-key line. */
  predicate IsCodeLine(form: FormData, i: int) {
    i == 8 || i == 10 || (HasSmartKey(form.smartKey) && i == 13)
  }

  lemma HoursAvoid(hours: string, c: char)
    requires c !in hours && c !in HOUR_WORD
    ensures c !in FormattedHours(hours)
  {
    ReplaceAllAvoids(hours, "PM", HOUR_WORD, c);
    ReplaceAllAvoids(ReplaceAll(hours, "PM", HOUR_WORD), "AM", HOUR_WORD, c);
    ReplaceAllAvoids(ReplaceAll(ReplaceAll(hours, "PM", HOUR_WORD), "AM", HOUR_WORD), ":00", "", c);
  }

  lemma HoursPmStep(hours: string, w: string)
    requires hours == "6:00 PM - 10:00 PM"
    ensures ReplaceAll(hours, "PM", w) == "6:00 " + w + " - 10:00 " + w
  {
    PmLayout(hours);
    ReplaceTwoTokens("6:00 ", " - 10:00 ", "", "PM", w);
  }

  lemma PmLayout(hours: string)
    requires hours == "6:00 PM - 10:00 PM"
    ensures hours == "6:00 " + "PM" + (" - 10:00 " + "PM" + "")
  {
    assert hours == "6:00 PM" + " - 10:00 PM";
    assert "6:00 PM" == "6:00 " + "PM";
    assert " - 10:00 PM" == " - 10:00 " + "PM" + "";
  }

  lemma HoursAmStep(w: string)
    requires 'A' !in w
    ensures ReplaceAll("6:00 " + w + " - 10:00 " + w, "AM", w) == "6:00 " + w + " - 10:00 " + w
  {
    ReplaceAllFree("6:00 " + w + " - 10:00 " + w, "AM", w);
  }

  /** Replacing a token that occurs exactly twice, with token-free text around it. */
  lemma ReplaceTwoTokens(x: string, a: string, b: string, d: string, rep: string)
    requires |d| > 0 && d[0] !in x && d[0] !in a && d[0] !in b
    ensures ReplaceAll(x + d + (a + d + b), d, rep) == x + rep + (a + rep + b)
  {
    ReplaceAllFirst(x, d, a + d + b, rep);
    ReplaceAllFirst(a, d, b, rep);
    ReplaceAllFree(b, d, rep);
  }

  lemma ColonLayout(w: string)
    ensures "6:00 " + w + " - 10:00 " + w == "6" + ":00" + ((" " + w + " - 10") + ":00" + (" " + w))
  {
    assert "6:00 " == "6" + ":00" + " ";
    assert " - 10:00 " == " - 10" + ":00" + " ";
  }

  lemma ColonFreeLayout(w: string)
    ensures "6" + "" + ((" " + w + " - 10") + "" + (" " + w)) == "6 " + w + " - 10 " + w
  {
  }

  lemma HoursColonStep(w: string)
    requires ':' !in w
    ensures ReplaceAll("6:00 " + w + " - 10:00 " + w, ":00", "") == "6 " + w + " - 10 " + w
  {
    ColonLayout(w);
    ReplaceTwoTokens("6", " " + w + " - 10", " " + w, ":00", "");
    ColonFreeLayout(w);
  }

  /** The shop's hours as the footer shows them: both `PM`s become the hour word and `:00` goes. */
  lemma ShopHoursFormatted(hours: string)
    requires hours == SHOP_CONFIG.shopHours
    ensures FormattedHours(hours) == "6 " + HOUR_WORD + " - 10 " + HOUR_WORD
  {
    var w := HOUR_WORD;
    assert 'A' !in w && ':' !in w;
    HoursPmStep(hours, w);
    HoursAmStep(w);
    HoursColonStep(w);
  }

  lemma HeaderAvoids(form: FormData, c: char)
    requires FixedTextAvoids(c) && OutsideDateText(c)
    requires c !in form.username && c !in form.purchaseDate && c !in form.dataPlan
    ensures forall i :: 0 <= i < |HeaderLines(form)| ==> c !in HeaderLines(form)[i]
  {
    DisplayAvoids(form.purchaseDate, c);
    ExpireDateAvoids(form.purchaseDate, DURATIONS[form.durationIdx].months, c);
    DisplayAvoids(ExpireDateRaw(form), c);
    HeaderLinesAvoid(form, c);
  }

  lemma HeaderLinesAvoid(form: FormData, c: char)
    requires c !in THANKS_LINE && c !in KEY_HEADING && c !in UsernameLine(form) && c !in StartDateLine(form)
    requires c !in ExpireDateLine(form) && c !in DataPlanLine(form)
    ensures forall i :: 0 <= i < |HeaderLines(form)| ==> c !in HeaderLines(form)[i]
  {
    var h := HeaderLines(form);
    forall i | 0 <= i < |h| ensures c !in h[i] {
      if i == 0 { assert h[i] == THANKS_LINE; }
      else if i == 1 || i == 6 { assert h[i] == ""; }
      else if i == 2 { assert h[i] == UsernameLine(form); }
      else if i == 3 { assert h[i] == StartDateLine(form); }
      else if i == 4 { assert h[i] == ExpireDateLine(form); }
      else if i == 5 { assert h[i] == DataPlanLine(form); }
      else { assert h[i] == KEY_HEADING; }
    }
  }

  lemma FooterAvoids(shop: ShopConfig, c: char)
    requires FixedTextAvoids(c)
    requires c !in shop.kpayNumber && c !in shop.kpayName && c !in shop.telegramUser
    requires c !in shop.phoneNumber && c !in shop.shopHours
    ensures forall i :: 0 <= i < |FooterLines(shop)| ==> c !in FooterLines(shop)[i]
  {
    HoursAvoid(shop.shopHours, c);
  }

  /**
   * A character that is in no field and in no fixed text is on no line,
   * except possibly the code lines.
   */
  lemma LinesAvoid(form: FormData, shop: ShopConfig, c: char)
    requires FixedTextAvoids(c) && OutsideDateText(c) && FieldsAvoid(form, shop, c)
    ensures forall i :: 0 <= i < |MessageLines(form, shop)| && !IsCodeLine(form, i) ==>
      c !in MessageLines(form, shop)[i]
  {
    var h, m, s, f := HeaderLines(form), MainKeyLines(form.outlineKey), SmartKeyLines(form.smartKey), FooterLines(shop);
    var lines := MessageLines(form, shop);
    HeaderAvoids(form, c);
    FooterAvoids(shop, c);
    TrimAvoids(form.outlineKey, c);
    assert lines == h + m + s + f;
    forall i | 0 <= i < |lines| && !IsCodeLine(form, i) ensures c !in lines[i] {
      GroupIndex(h, m, s, f, i);
    }
  }

  /** Which group line `i` of the message comes from. */
  lemma GroupIndex(h: seq<string>, m: seq<string>, s: seq<string>, f: seq<string>, i: int)
    requires |h| == 8 && |m| == 3 && 0 <= i < |h + m + s + f|
    ensures var lines := h + m + s + f;
      && (i < 8 ==> lines[i] == h[i])
      && (8 <= i < 11 ==> lines[i] == m[i - 8])
      && (11 <= i < 11 + |s| ==> lines[i] == s[i - 11])
      && (11 + |s| <= i ==> lines[i] == f[i - 11 - |s|])
  {
  }

  lemma NewlineOutsideDateText()
    ensures OutsideDateText('\n') && OutsideDateText('`')
  {
  }

  /** No line of the message breaks, so long as no field holds a newline. */
  lemma LinesAreSingle(form: FormData, shop: ShopConfig)
    requires FieldsAvoid(form, shop, '\n')
    ensures forall i :: 0 <= i < |MessageLines(form, shop)| ==> '\n' !in MessageLines(form, shop)[i]
  {
    FixedTextPlain();
    NewlineOutsideDateText();
    LinesAvoid(form, shop, '\n');
    TrimAvoids(form.smartKey, '\n');
  }

  /**
   * Splitting the message on newlines gives back exactly its lines: the
   * preview sees the 22 (or 24) lines of the template, in order.
   */
  lemma MessageSplitsIntoLines(form: FormData, shop: ShopConfig)
    requires FieldsAvoid(form, shop, '\n')
    ensures Split(GeneratedMessage(form, shop), "\n") == MessageLines(form, shop)
    ensures Count(GeneratedMessage(form, shop), "\n") + 1 == |MessageLines(form, shop)|
  {
    LinesAreSingle(form, shop);
    SplitJoin(MessageLines(form, shop), '\n');
    SplitCount(GeneratedMessage(form, shop), "\n");
  }

  /**
   * Only the two fence lines and, when written, the smart-key line hold a
   * backtick, so long as no field holds one.
   */
  lemma BacktickLines(form: FormData, shop: ShopConfig)
    requires FieldsAvoid(form, shop, '`')
    ensures forall i :: 0 <= i < |MessageLines(form, shop)| ==>
      ('`' in MessageLines(form, shop)[i] <==> IsCodeLine(form, i))
  {
    FixedTextPlain();
    NewlineOutsideDateText();
    LinesAvoid(form, shop, '`');
    CodeLinesHoldBacktick(form, shop);
  }

  lemma CodeLinesHoldBacktick(form: FormData, shop: ShopConfig)
    ensures forall i :: 0 <= i < |MessageLines(form, shop)| && IsCodeLine(form, i) ==>
      '`' in MessageLines(form, shop)[i]
  {
    var lines := MessageLines(form, shop);
    forall i | 0 <= i < |lines| && IsCodeLine(form, i) ensures '`' in lines[i] {
      if i == 8 || i == 10 {
        FenceLinesAt(form, shop);
        assert CODE_FENCE[0] == '`';
      } else {
        SmartKeyCodeAt(form, shop);
        assert SmartKeyCodeLine(form.smartKey)[0] == '`';
      }
    }
  }

  lemma FenceLinesAt(form: FormData, shop: ShopConfig)
    ensures MessageLines(form, shop)[8] == CODE_FENCE && MessageLines(form, shop)[10] == CODE_FENCE
  {
    LinePositions(form, shop);
  }

  lemma SmartKeyCodeAt(form: FormData, shop: ShopConfig)
    requires HasSmartKey(form.smartKey)
    ensures MessageLines(form, shop)[13] == SmartKeyCodeLine(form.smartKey)
  {
    LinePositions(form, shop);
  }
  // ---------------------------------------------------------------------------
  // The layout of the message
  // ---------------------------------------------------------------------------

  /** Where each group of lines sits in the message. */
  lemma LineGroups(form: FormData, shop: ShopConfig)
    ensures var lines, s := MessageLines(form, shop), SmartKeyLines(form.smartKey);
      && lines[..8] == HeaderLines(form)
      && lines[8..11] == MainKeyLines(form.outlineKey)
      && lines[11..11 + |s|] == s
      && lines[11 + |s|..] == FooterLines(shop)
  {
    GroupSlices(HeaderLines(form), MainKeyLines(form.outlineKey), SmartKeyLines(form.smartKey), FooterLines(shop));
  }

  lemma GroupSlices(h: seq<string>, m: seq<string>, s: seq<string>, f: seq<string>)
    requires |h| == 8 && |m| == 3
    ensures var lines := h + m + s + f;
      && lines[..8] == h && lines[8..11] == m && lines[11..11 + |s|] == s && lines[11 + |s|..] == f
  {
  }

  /** The positions of the lines the layout lemmas speak about. */
  lemma LinePositions(form: FormData, shop: ShopConfig)
    ensures var lines, h, m, s, f :=
        MessageLines(form, shop), HeaderLines(form), MainKeyLines(form.outlineKey),
        SmartKeyLines(form.smartKey), FooterLines(shop);
      && lines[2] == h[2] && lines[3] == h[3] && lines[4] == h[4] && lines[5] == h[5] && lines[7] == h[7]
      && lines[8] == m[0] && lines[9] == m[1] && lines[10] == m[2]
      && lines[11] == s[0] && (|s| == 3 ==> lines[12] == s[1] && lines[13] == s[2])
      && lines[11 + |s|] == f[0] && lines[12 + |s|] == f[1] && lines[15 + |s|] == f[4]
  {
    var lines, h, m, s, f :=
      MessageLines(form, shop), HeaderLines(form), MainKeyLines(form.outlineKey),
      SmartKeyLines(form.smartKey), FooterLines(shop);
    LineGroups(form, shop);
    assert lines[2] == lines[..8][2] && lines[3] == lines[..8][3] && lines[4] == lines[..8][4];
    assert lines[5] == lines[..8][5] && lines[7] == lines[..8][7];
    assert lines[8] == lines[8..11][0] && lines[9] == lines[8..11][1] && lines[10] == lines[8..11][2];
    assert lines[11] == lines[11..11 + |s|][0];
    if |s| == 3 {
      assert lines[12] == lines[11..14][1] && lines[13] == lines[11..14][2];
    }
    assert lines[11 + |s|] == lines[11 + |s|..][0] && lines[12 + |s|] == lines[11 + |s|..][1];
    assert lines[15 + |s|] == lines[11 + |s|..][4];
  }

  /**
   * The main key always takes three lines under its heading: a bare fence,
   * the key, a bare fence. Only the empty key is replaced by the placeholder;
   * a whitespace-only key leaves an empty middle line; any other key is shown
   * trimmed, beginning and ending with a non-space.
   */
  lemma MainKeyBlock(form: FormData, shop: ShopConfig)
    ensures var lines := MessageLines(form, shop);
      && lines[7] == KEY_HEADING && lines[8] == CODE_FENCE && lines[10] == CODE_FENCE
      && (form.outlineKey == "" ==> lines[9] == MAIN_KEY_PLACEHOLDER)
      && (form.outlineKey != "" && IsBlank(form.outlineKey) ==> lines[9] == "")
      && (!IsBlank(form.outlineKey) ==>
            && lines[9] == Trim(form.outlineKey) && lines[9] != ""
            && !IsJsWhitespace(lines[9][0]) && !IsJsWhitespace(lines[9][|lines[9]| - 1]))
  {
    LinePositions(form, shop);
    if form.outlineKey != "" {
      TrimSpec(form.outlineKey);
    }
  }

  /**
   * The smart-key section is written exactly when the smart key is not blank.
   * When written it is an empty line, the heading, and the trimmed key between
   * two backticks; when not, its slot is one empty line. Either way the
   * payment heading follows an empty line.
   */
  lemma SmartKeySlot(form: FormData, shop: ShopConfig)
    ensures HasSmartKey(form.smartKey) <==> !IsBlank(form.smartKey)
    ensures var lines := MessageLines(form, shop);
      if HasSmartKey(form.smartKey) then
        && |lines| == 24
        && lines[11] == "" && lines[12] == SMART_KEY_HEADING
        && lines[13] == "`" + Trim(form.smartKey) + "`"
        && lines[14] == "" && lines[15] == KPAY_HEADING
      else
        && |lines| == 22
        && lines[11] == "" && lines[12] == "" && lines[13] == KPAY_HEADING
    ensures MessageLines(form, shop)[SeparatorIndex(form)] == SEPARATOR_LINE
  {
    LinePositions(form, shop);
    if form.smartKey == "" {
      assert Trim(form.smartKey) == "";
    }
  }

  /**
   * An empty username or data plan is replaced by its placeholder; anything
   * else, even whitespace, is interpolated exactly as typed.
   */
  lemma PlaceholderLines(form: FormData, shop: ShopConfig)
    ensures var lines := MessageLines(form, shop);
      && (form.username == "" ==> lines[2] == USERNAME_LABEL + USERNAME_PLACEHOLDER)
      && (form.username != "" ==> lines[2] == USERNAME_LABEL + form.username)
      && (form.dataPlan == "" ==> lines[5] == DATA_PLAN_LABEL + DATA_PLAN_PLACEHOLDER + DATA_PLAN_UNIT)
      && (form.dataPlan != "" ==> lines[5] == DATA_PLAN_LABEL + form.dataPlan + DATA_PLAN_UNIT)
  {
    LinePositions(form, shop);
  }

  lemma StartDateText(form: FormData, d: Date)
    requires ValidDate(d) && form.purchaseDate == FormatIsoDate(d)
    ensures StartDateLine(form) == START_LABEL + (TwoDigits(d.day) + "/" + TwoDigits(d.month) + "/" + NatToString(d.year))
  {
    DisplayOfIso(d);
  }

  lemma ExpireDateText(form: FormData, d: Date)
    requires ValidDate(d) && 1000 <= d.year <= 9999 && form.purchaseDate == FormatIsoDate(d)
    ensures var e := AddMonths(d, DURATIONS[form.durationIdx].months);
      ExpireDateLine(form) == EXPIRE_LABEL + (TwoDigits(e.day) + "/" + TwoDigits(e.month) + "/" + NatToString(e.year))
  {
    var e := AddMonths(d, DURATIONS[form.durationIdx].months);
    var s := ExpireDateRaw(form);
    assert s == FormatIsoDate(e) by {
      ExpireDateOfIso(d, DURATIONS[form.durationIdx].months);
    }
    LabelledIsoDisplay(EXPIRE_LABEL, s, e);
    assert ExpireDateLine(form) == EXPIRE_LABEL + FormatDateForDisplay(s);
  }

  lemma LabelledIsoDisplay(prefix: string, s: string, e: Date)
    requires ValidDate(e) && s == FormatIsoDate(e)
    ensures prefix + FormatDateForDisplay(s) == prefix + (TwoDigits(e.day) + "/" + TwoDigits(e.month) + "/" + NatToString(e.year))
  {
    DisplayOfIso(e);
  }

  /**
   * For a well-formed purchase date the two date lines show it and its
   * expiry, `DURATIONS[durationIdx].months` later, as `DD/MM/YYYY`.
   */
  lemma DateLines(form: FormData, shop: ShopConfig, d: Date)
    requires ValidDate(d) && 1000 <= d.year <= 9999 && form.purchaseDate == FormatIsoDate(d)
    ensures var lines := MessageLines(form, shop);
      var e := AddMonths(d, DURATIONS[form.durationIdx].months);
      && lines[3] == START_LABEL + (TwoDigits(d.day) + "/" + TwoDigits(d.month) + "/" + NatToString(d.year))
      && lines[4] == EXPIRE_LABEL + (TwoDigits(e.day) + "/" + TwoDigits(e.month) + "/" + NatToString(e.year))
  {
    LinePositions(form, shop);
    StartDateText(form, d);
    ExpireDateText(form, d);
  }

  /**
   * Without a purchase date both date lines show the `DD/MM/YYYY` placeholder;
   * with one that is not a date the expiry shows `NaN/NaN/NaN`.
   */
  lemma DateLinesWithoutDate(form: FormData, shop: ShopConfig)
    ensures var lines := MessageLines(form, shop);
      && (form.purchaseDate == "" ==>
            lines[3] == START_LABEL + DISPLAY_PLACEHOLDER && lines[4] == EXPIRE_LABEL + DISPLAY_PLACEHOLDER)
      && (form.purchaseDate != "" && ParseIsoDate(form.purchaseDate).None? ==>
            lines[4] == EXPIRE_LABEL + "NaN/NaN/NaN")
  {
    LinePositions(form, shop);
    if form.purchaseDate != "" && ParseIsoDate(form.purchaseDate).None? {
      DisplayOfInvalid(ExpireDateRaw(form));
    }
  }
}
