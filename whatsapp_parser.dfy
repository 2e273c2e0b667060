/** Chintu's chat analyser: one exported WhatsApp line
    "DD/MM/YYYY, HH:MM - Sender Name: Message text" split into its parts. */
module WhatsAppParser {
  import opened Wrappers
  import opened Text
  import opened Sequences

  datatype Sentiment = Funny | Love | Neutral

  datatype Message = Message(date: string, time: string, sender: string, text: string,
                             wordCount: nat, sentiment: Sentiment)

  predicate IsWord(w: string) {
    w != ""
  }

  /** The non-empty pieces of the text split at single spaces. */
  function Words(s: string): seq<string> {
    Filter(Split(s, ' '), IsWord)
  }

  /** Every word is non-empty and holds no space. */
  lemma WordsAreWords(s: string)
    ensures forall i :: 0 <= i < |Words(s)| ==> Words(s)[i] != "" && ' ' !in Words(s)[i]
  {
    var pieces := Split(s, ' ');
    SplitPiecesFree(s, ' ');
    FilterKeeps(pieces, IsWord);
    assert forall i :: 0 <= i < |Words(s)| ==> Words(s)[i] in pieces;
  }

  /** A space separates words and never joins or splits them. */
  lemma WordsAround(a: string, b: string)
    ensures Words(a + " " + b) == Words(a) + Words(b)
  {
    SplitAround(a, b, ' ');
    FilterAppend(Split(a, ' '), Split(b, ' '), IsWord);
  }

  /** A non-empty run of non-space characters is one word. */
  lemma WordsOfWord(w: string)
    requires w != "" && ' ' !in w
    ensures Words(w) == [w]
  {
    SplitWithoutSeparator(w, ' ');
    FilterAll([w], IsWord);
  }

  /** Splitting words joined by single spaces gives the words back. */
  lemma {:induction false} WordsOfJoin(ws: seq<string>)
    requires |ws| >= 1
    requires forall i :: 0 <= i < |ws| ==> ws[i] != "" && ' ' !in ws[i]
    ensures Words(Join(ws, ' ')) == ws
  {
    if |ws| == 1 {
      WordsOfWord(ws[0]);
    } else {
      var rest := Join(ws[1..], ' ');
      assert Join(ws, ' ') == ws[0] + " " + rest;
      WordsOfJoin(ws[1..]);
      WordsOfWord(ws[0]);
      WordsAround(ws[0], rest);
      assert [ws[0]] + ws[1..] == ws;
    }
  }

  lemma WordsOfEmpty()
    ensures Words("") == []
  {
  }

  ghost predicate Mentions(lower: string, marker: string) {
    exists i :: OccursAt(lower, marker, i)
  }

  /** "funny" when the lower-cased text contains a laughing marker, else
      "love" when it contains a love marker, else "neutral". */
  function SentimentOf(text: string): (r: Sentiment)
    ensures var l := ToLower(text);
            var funny := Mentions(l, "😂") || Mentions(l, ":)") || Mentions(l, "haha");
            var love := Mentions(l, "❤") || Mentions(l, "love") || Mentions(l, "pyaar");
            (r == Funny <==> funny) && (r == Love <==> !funny && love) && (r == Neutral <==> !funny && !love)
  {
    var l := ToLower(text);
    if Contains(l, "😂") || Contains(l, ":)") || Contains(l, "haha") then Funny
    else if Contains(l, "❤") || Contains(l, "love") || Contains(l, "pyaar") then Love
    else Neutral
  }

  /** The text before and the text after the first occurrence of the marker;
      None when it does not occur. */
  function Cut(s: string, marker: string): (r: Option<(string, string)>)
    ensures r.None? <==> !Mentions(s, marker)
    ensures r.Some? ==> s == r.value.0 + marker + r.value.1
    ensures r.Some? ==> forall j :: 0 <= j < |r.value.0| ==> !OccursAt(s, marker, j)
  {
    match IndexOf(s, marker)
    case None => None
    case Some(i) =>
      assert s == s[..i] + marker + s[i + |marker|..];
      Some((s[..i], s[i + |marker|..]))
  }

  /** When a character `c` of the marker (its first, or its second but not its
      first) does not occur in `a`, the marker after `a` is the first one. */
  lemma CutAt(a: string, marker: string, b: string, c: char)
    requires |marker| >= 2 && (marker[0] == c || (marker[1] == c && marker[0] != c))
    requires c !in a
    ensures Cut(a + marker + b, marker) == Some((a, b))
  {
    var s := a + marker + b;
    assert OccursAt(s, marker, |a|);
    assert forall j :: 0 <= j < |a| ==> s[j] != c;
    FirstOccurrence(s, marker, |a|, c);
    assert s[..|a|] == a;
    assert s[|a| + |marker|..] == b;
  }

  /** When the marker occurs at `k`, and a character `c` that is its first
      character, or its second but not its first, appears nowhere before `k`,
      `k` is the first occurrence. */
  lemma FirstOccurrence(s: string, marker: string, k: nat, c: char)
    requires OccursAt(s, marker, k)
    requires |marker| >= 2 && (marker[0] == c || (marker[1] == c && marker[0] != c))
    requires forall j :: 0 <= j < k ==> s[j] != c
    ensures IndexOf(s, marker) == Some(k)
  {
  }

  /** The header before " - " holds the date, then the first ", ", then the
      time; a header without ", " is all date. */
  function SplitHeader(header: string): (r: (string, string))
    ensures !Mentions(header, ", ") ==> r == (header, "")
    ensures Mentions(header, ", ") ==> header == r.0 + ", " + r.1
    ensures Mentions(header, ", ") ==> forall j :: 0 <= j < |r.0| ==> !OccursAt(header, ", ", j)
  {
    match Cut(header, ", ")
    case None => (header, "")
    case Some((date, time)) => (date, time)
  }

  /** The line parsed into a message record; None when the line is not a
      string, has no " - ", or has no ": " after the first " - ". */
  function ParseWhatsAppMessage(line: Option<string>): (r: Option<Message>)
    ensures line.None? ==> r.None?
    ensures line.Some? && !Mentions(line.value, " - ") ==> r.None?
    ensures r.Some? ==> Unpadded(r.value.text)
    ensures r.Some? ==> r.value.wordCount == |Words(r.value.text)|
    ensures r.Some? ==> r.value.sentiment == SentimentOf(r.value.text)
  {
    if line.None? then None
    else
      match Cut(line.value, " - ")
      case None => None
      case Some((header, after)) =>
        match Cut(after, ": ")
        case None => None
        case Some((sender, rest)) =>
          var (date, time) := SplitHeader(header);
          var text := Trim(rest);
          Some(Message(date, time, sender, text, |Words(text)|, SentimentOf(text)))
  }

  /** A parsed line is its header, " - ", the sender, ": " and text that trims
      to the message text, with no earlier " - " and no ": " inside the
      sender. */
  lemma ParsedLineShape(s: string)
    requires ParseWhatsAppMessage(Some(s)).Some?
    ensures var m := ParseWhatsAppMessage(Some(s)).value;
            exists header, rest ::
              s == header + " - " + m.sender + ": " + rest &&
              (m.date, m.time) == SplitHeader(header) && m.text == Trim(rest) &&
              (forall j :: 0 <= j < |header| ==> !OccursAt(s, " - ", j)) &&
              (forall j :: 0 <= j < |m.sender| ==> !OccursAt(m.sender + ": " + rest, ": ", j))
  {
    var c1 := Cut(s, " - ").value;
    var c2 := Cut(c1.1, ": ").value;
    var m := ParseWhatsAppMessage(Some(s)).value;
    assert m.sender == c2.0 && (m.date, m.time) == SplitHeader(c1.0) && m.text == Trim(c2.1);
    Regroup(c1.0, " - ", c2.0, ": ", c2.1);
  }

  /** Regrouping the five pieces of a line. */
  lemma Regroup(a: string, b: string, c: string, d: string, e: string)
    ensures a + b + (c + d + e) == a + b + c + d + e
  {
  }

  /** Parsing inverts formatting: a line written from a date without commas
      or dashes, a time without dashes and a sender without colons gives back
      those parts and the trimmed text. */
  lemma ParseOfFormatted(date: string, time: string, sender: string, text: string)
    requires ',' !in date && '-' !in date && '-' !in time && ':' !in sender
    ensures ParseWhatsAppMessage(Some(date + ", " + time + " - " + sender + ": " + text))
            == Some(Message(date, time, sender, Trim(text), |Words(Trim(text))|, SentimentOf(Trim(text))))
  {
    var header := date + ", " + time;
    var after := sender + ": " + text;
    Regroup(header, " - ", sender, ": ", text);
    assert header + " - " + sender == date + ", " + time + " - " + sender;
    assert '-' !in header by {
      assert forall j :: 0 <= j < |header| ==> header[j] in date || header[j] in ", " || header[j] in time;
    }
    CutAt(header, " - ", after, '-');
    CutAt(sender, ": ", text, ':');
    CutAt(date, ", ", time, ',');
  }

  /** A marker one of whose characters is missing from the text does not
      occur in it. */
  lemma NotMentioned(s: string, marker: string, k: nat)
    requires k < |marker| && marker[k] !in s
    ensures !Mentions(s, marker)
  {
  }

  /** A line assembled from a date, a time, a sender and an unpadded text
      made of the given words parses back into exactly those parts. */
  lemma ParseOfParts(line: string, date: string, time: string, sender: string, text: string,
                     words: seq<string>, sentiment: Sentiment)
    requires line == date + ", " + time + " - " + sender + ": " + text
    requires ',' !in date && '-' !in date && '-' !in time && ':' !in sender
    requires Unpadded(text) && |words| >= 1 && Join(words, ' ') == text
    requires forall i :: 0 <= i < |words| ==> words[i] != "" && ' ' !in words[i]
    requires SentimentOf(text) == sentiment
    ensures ParseWhatsAppMessage(Some(line)) == Some(Message(date, time, sender, text, |words|, sentiment))
  {
    ParseOfFormatted(date, time, sender, text);
    TrimOfUnpadded(text);
    WordsOfJoin(words);
  }

  /** The chat line "25/01/2025, 14:30 - Rahul: Bhai party kab hai? 😂". */
  function RahulChat(): string { "25/01/2025" + ", " + "14:30" + " - " + "Rahul" + ": " + RahulText() }
  function RahulText(): string { "Bhai party kab hai? 😂" }
  function RahulWords(): seq<string> { ["Bhai", "party", "kab", "hai?", "😂"] }

  /** The text is made of its words. */
  lemma RahulPieces()
    ensures Unpadded(RahulText()) && Join(RahulWords(), ' ') == RahulText()
    ensures |RahulWords()| == 5 && forall i :: 0 <= i < 5 ==> RahulWords()[i] != "" && ' ' !in RahulWords()[i]
  {
    RahulJoined();
  }

  lemma RahulJoined()
    ensures Unpadded(RahulText()) && Join(RahulWords(), ' ') == RahulText()
  {
  }

  lemma RahulSentiment()
    ensures SentimentOf(RahulText()) == Funny
  {
    assert OccursAt(ToLower(RahulText()), "😂", 20);
  }

  lemma RahulFields()
    ensures ',' !in "25/01/2025" && '-' !in "25/01/2025" && '-' !in "14:30" && ':' !in "Rahul"
  {
  }

  lemma RahulExample()
    ensures ParseWhatsAppMessage(Some(RahulChat())) == Some(Message("25/01/2025", "14:30", "Rahul", RahulText(), 5, Funny))
  {
    RahulPieces();
    RahulSentiment();
    RahulFields();
    ParseOfParts(RahulChat(), "25/01/2025", "14:30", "Rahul", RahulText(), RahulWords(), Funny);
  }

  /** The chat line "01/12/2024, 09:15 - Priya: I love this song". */
  function PriyaChat(): string { "01/12/2024" + ", " + "09:15" + " - " + "Priya" + ": " + PriyaText() }
  function PriyaText(): string { "I love this song" }
  function PriyaWords(): seq<string> { ["I", "love", "this", "song"] }

  /** The text is made of its words. */
  lemma PriyaPieces()
    ensures Unpadded(PriyaText()) && Join(PriyaWords(), ' ') == PriyaText()
    ensures |PriyaWords()| == 4 && forall i :: 0 <= i < 4 ==> PriyaWords()[i] != "" && ' ' !in PriyaWords()[i]
  {
    PriyaJoined();
  }

  lemma PriyaJoined()
    ensures Unpadded(PriyaText()) && Join(PriyaWords(), ' ') == PriyaText()
  {
  }

  lemma PriyaLower()
    ensures ToLower(PriyaText()) == "i love this song"
  {
  }

  lemma PriyaSentiment()
    ensures SentimentOf(PriyaText()) == Love
  {
    var l := "i love this song";
    PriyaLower();
    assert OccursAt(l, "love", 2);
    NotMentioned(l, "😂", 0);
    NotMentioned(l, ":)", 0);
    NotMentioned(l, "haha", 1);
  }

  lemma PriyaFields()
    ensures ',' !in "01/12/2024" && '-' !in "01/12/2024" && '-' !in "09:15" && ':' !in "Priya"
  {
  }

  lemma PriyaExample()
    ensures ParseWhatsAppMessage(Some(PriyaChat())) == Some(Message("01/12/2024", "09:15", "Priya", PriyaText(), 4, Love))
  {
    PriyaPieces();
    PriyaSentiment();
    PriyaFields();
    ParseOfParts(PriyaChat(), "01/12/2024", "09:15", "Priya", PriyaText(), PriyaWords(), Love);
  }

  lemma MissingDashExample()
    ensures ParseWhatsAppMessage(Some("25/01/2025, 14:30 Rahul: hi")) == None
  {
    NotMentioned("25/01/2025, 14:30 Rahul: hi", " - ", 1);
  }
}
