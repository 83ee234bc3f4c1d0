/**
 * The preview of the invoice: the segmenter applied to the generated message.
 * The template and the segmenter share one markup vocabulary (fences,
 * backticks, bold markers, the dash run); these lemmas state what the
 * segmenter makes of each line the template writes.
 */
module InvoicePreview {
  import opened Text
  import opened Calendar
  import opened Preview
  import opened Invoice

  /** The preview has one segment per message line, each the classification of that line. */
  lemma PreviewOfMessage(form: FormData, shop: ShopConfig)
    requires FieldsAvoid(form, shop, '\n')
    ensures var segs, lines := SegmentAll(GeneratedMessage(form, shop)), MessageLines(form, shop);
      && |segs| == |lines|
      && forall i :: 0 <= i < |lines| ==> segs[i] == SegmentLine(lines[i])
  {
    LinesAreSingle(form, shop);
    SegmentAllJoin(MessageLines(form, shop));
  }

  /** The classification of message line `i`. */
  lemma PreviewAt(form: FormData, shop: ShopConfig, i: nat)
    requires FieldsAvoid(form, shop, '\n') && i < |MessageLines(form, shop)|
    ensures |SegmentAll(GeneratedMessage(form, shop))| == |MessageLines(form, shop)|
    ensures SegmentAll(GeneratedMessage(form, shop))[i] == SegmentLine(MessageLines(form, shop)[i])
  {
    PreviewOfMessage(form, shop);
  }

  lemma PlaceholderChars(line: string)
    requires line == MAIN_KEY_PLACEHOLDER
    ensures '`' !in line && '*' !in line && '-' !in line
  {
  }

  /** A line without backticks, asterisks and dashes is shown as it is. */
  lemma PlainWithoutMarkChars(line: string)
    requires '`' !in line && '*' !in line && '-' !in line
    ensures SegmentLine(line) == Plain(line)
  {
    NotContainsFirst(line, BOLD);
    NotContainsFirst(line, SEPARATOR_RUN);
    PlainLine(line);
  }

  /** The main-key line is shown as plain text when it carries no markup. */
  lemma PlainMainKey(k: string)
    requires '`' !in k && !Contains(k, BOLD) && !Contains(k, SEPARATOR_RUN)
    ensures SegmentLine(MainKeyText(k)) == Plain(MainKeyText(k))
  {
    var line := MainKeyText(k);
    if k == "" {
      PlaceholderChars(line);
      PlainWithoutMarkChars(line);
    } else {
      assert line == Trim(k);
      TrimAvoids(k, '`');
      NotContainsTrim(k, BOLD);
      NotContainsTrim(k, SEPARATOR_RUN);
      PlainLine(line);
    }
  }

  /**
   * The main key's two fence lines preview as empty fenced blocks; the key
   * itself, on the line between them, is classified on its own and, when it
   * carries no markup, previews as plain text.
   */
  lemma PreviewOfMainKey(form: FormData, shop: ShopConfig)
    requires FieldsAvoid(form, shop, '\n')
    ensures |SegmentAll(GeneratedMessage(form, shop))| == |MessageLines(form, shop)|
    ensures var segs := SegmentAll(GeneratedMessage(form, shop));
      && segs[8] == Fenced("") && segs[10] == Fenced("")
      && segs[9] == SegmentLine(MainKeyText(form.outlineKey))
    ensures '`' !in form.outlineKey && !Contains(form.outlineKey, BOLD) && !Contains(form.outlineKey, SEPARATOR_RUN)
      ==> SegmentAll(GeneratedMessage(form, shop))[9] == Plain(MainKeyText(form.outlineKey))
  {
    PreviewAt(form, shop, 8);
    PreviewAt(form, shop, 9);
    PreviewAt(form, shop, 10);
    MainKeyBlock(form, shop);
    BareFence();
    var k := form.outlineKey;
    if '`' !in k && !Contains(k, BOLD) && !Contains(k, SEPARATOR_RUN) {
      PlainMainKey(k);
    }
  }

  lemma BacktickWrappedNotFence(k: string)
    requires k != [] && '`' !in k
    ensures !IsFenceLine("`" + k + "`") && '`' in "`" + k + "`"
  {
    var line := "`" + k + "`";
    assert line[0] == '`' && line[1] == k[0];
    SingleBacktickStart(line);
  }

  lemma BacktickWrappedSplit(k: string)
    requires '`' !in k
    ensures Split("`" + k + "`", BACKTICK) == ["", k, ""]
  {
    JoinThree(["", k, ""], "`");
    assert Join(["", k, ""], "`") == "`" + k + "`";
    SplitJoin(["", k, ""], '`');
  }

  /** A backtick-free non-empty key between two backticks splits into an empty, a styled and an empty run. */
  lemma InlineCodeKey(k: string)
    requires k != [] && '`' !in k
    ensures SegmentLine("`" + k + "`") == InlineCode([Run("", false), Run(k, true), Run("", false)])
  {
    BacktickWrappedNotFence(k);
    InlineCodeLine("`" + k + "`");
    BacktickWrappedSplit(k);
    assert Alternate(["", k, ""]) == [Run("", false), Run(k, true), Run("", false)];
  }

  /** When written, the smart key previews as inline code styling exactly the trimmed key. */
  lemma PreviewOfSmartKey(form: FormData, shop: ShopConfig)
    requires FieldsAvoid(form, shop, '\n')
    requires HasSmartKey(form.smartKey) && '`' !in form.smartKey
    ensures |SegmentAll(GeneratedMessage(form, shop))| == 24
    ensures SegmentAll(GeneratedMessage(form, shop))[13] ==
      InlineCode([Run("", false), Run(Trim(form.smartKey), true), Run("", false)])
  {
    PreviewAt(form, shop, 13);
    SmartKeySlot(form, shop);
    TrimAvoids(form.smartKey, '`');
    InlineCodeKey(Trim(form.smartKey));
  }

  /** The dash line is classified as the separator. */
  lemma SeparatorLineSegment(line: string)
    requires line == SEPARATOR_LINE
    ensures SegmentLine(line) == Separator
  {
    assert line == SEPARATOR_RUN;
    SeparatorRunItself(line);
    SeparatorRunLine(line);
  }

  /** The separator line previews as the separator, wherever the smart-key section puts it. */
  lemma PreviewOfSeparator(form: FormData, shop: ShopConfig)
    requires FieldsAvoid(form, shop, '\n')
    ensures SeparatorIndex(form) < |SegmentAll(GeneratedMessage(form, shop))|
    ensures SegmentAll(GeneratedMessage(form, shop))[SeparatorIndex(form)] == Separator
  {
    PreviewAt(form, shop, SeparatorIndex(form));
    SmartKeySlot(form, shop);
    SeparatorLineSegment(MessageLines(form, shop)[SeparatorIndex(form)]);
  }

  /** A line of three bold-free pieces joined by bold markers splits back into them. */
  lemma ThreeBoldPieces(a: string, b: string, c: string)
    requires '*' !in a && '*' !in b && '*' !in c
    ensures Split(a + BOLD + (b + BOLD + c), BOLD) == [a, b, c]
  {
    SplitAfterPrefix(a, BOLD, b + BOLD + c);
    SplitAfterPrefix(b, BOLD, c);
    NotContainsFirst(c, BOLD);
    SplitNoSeparator(c, BOLD);
  }

  lemma UsernameLabelShape(shown: string)
    ensures USERNAME_LABEL + shown == "👤 " + BOLD + ("Username:" + BOLD + (" " + shown))
  {
  }

  lemma UsernameLabelWords()
    ensures '*' !in "👤 " && '*' !in "Username:"
  {
  }

  lemma UsernameLineSplit(shown: string)
    requires '*' !in shown
    ensures Split(USERNAME_LABEL + shown, BOLD) == ["👤 ", "Username:", " " + shown]
  {
    UsernameLabelShape(shown);
    UsernameLabelWords();
    ThreeBoldPieces("👤 ", "Username:", " " + shown);
  }

  /** The username line previews as its label styled bold and its value plain. */
  lemma UsernameLineSegment(shown: string)
    requires '`' !in shown && '*' !in shown
    ensures SegmentLine(USERNAME_LABEL + shown) ==
      Bold([Run("👤 ", false), Run("Username:", true), Run(" " + shown, false)])
  {
    var line := USERNAME_LABEL + shown;
    UsernameLineSplit(shown);
    UsernameLineMarks(shown);
    BoldLine(line);
    AlternateThree("👤 ", "Username:", " " + shown);
  }

  lemma UsernameLineMarks(shown: string)
    requires '`' !in shown && '*' !in shown
    ensures '`' !in USERNAME_LABEL + shown && Contains(USERNAME_LABEL + shown, BOLD)
  {
    var line := USERNAME_LABEL + shown;
    UsernameLineSplit(shown);
    UsernameLabelPlain(USERNAME_LABEL, '`');
    if !Contains(line, BOLD) {
      SplitNoSeparator(line, BOLD);
    }
  }

  lemma AlternateThree(a: string, b: string, c: string)
    ensures Alternate([a, b, c]) == [Run(a, false), Run(b, true), Run(c, false)]
  {
  }

  /**
   * The username line previews as bold text: the label styled, the value
   * (or its placeholder) plain, so long as the value holds no markup.
   */
  lemma PreviewOfUsername(form: FormData, shop: ShopConfig)
    requires FieldsAvoid(form, shop, '\n')
    requires '`' !in form.username && '*' !in form.username
    ensures |SegmentAll(GeneratedMessage(form, shop))| == |MessageLines(form, shop)|
    ensures SegmentAll(GeneratedMessage(form, shop))[2] ==
      Bold([Run("👤 ", false), Run("Username:", true), Run(" " + OrElse(form.username, USERNAME_PLACEHOLDER), false)])
  {
    PreviewAt(form, shop, 2);
    UsernameAtLine(form, shop);
    var shown := OrElse(form.username, USERNAME_PLACEHOLDER);
    UsernameShownClean(form.username, shown);
    UsernameLineSegment(shown);
  }

  lemma UsernameAtLine(form: FormData, shop: ShopConfig)
    ensures MessageLines(form, shop)[2] == USERNAME_LABEL + OrElse(form.username, USERNAME_PLACEHOLDER)
  {
    LinePositions(form, shop);
  }

  lemma UsernameShownClean(username: string, shown: string)
    requires '`' !in username && '*' !in username
    requires shown == OrElse(username, USERNAME_PLACEHOLDER)
    ensures '`' !in shown && '*' !in shown
  {
  }
}
