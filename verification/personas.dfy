/**
 The two instances of the selector: the serverless handler's 28-entry
 table (api/index.py) and the database-backed app's 9-entry table
 (app.py), with their templates.

 Two replies of the serverless table embed the current time and date; the
 already formatted clock readings (`%H:%M:%S` and `%Y-%m-%d`) are
 parameters. Some characters of app.py are stored in the source as
 mis-decoded UTF-8 (for instance U+00F0 U+0178 U+02DC U+0160 where an emoji
 was meant); they are reproduced code point for code point.
 */
module Personas {
  import opened Text
  import opened Selector

  // The canned replies of the serverless handler (api/index.py lines 33-60).
  // They are named so that a proof about one trigger does not carry every text.

  const HelloReply: string := "Hello! How can I help you today?"
  const HiReply: string := "Hi there! What can I do for you?"
  const HeyReply: string := "Hey! How's it going? What would you like to chat about?"
  const HowAreYouReply: string := "I'm doing great! Thanks for asking. How can I assist you?"
  const WhatIsYourNameReply: string := "I'm ChatBot, your AI assistant. What would you like to know?"
  const WhoAreYouReply: string := "I'm an AI chatbot created to help answer your questions and have conversations!"
  const WhatCanYouDoReply: string := "I can chat with you, answer basic questions, and help with simple tasks. What would you like to explore?"
  const ByeReply: string := "Goodbye! Have a great day!"
  const GoodbyeReply: string := "See you later! Thanks for chatting with me!"
  const ThanksReply: string := "You're welcome! Is there anything else I can help you with?"
  const ThankYouReply: string := "My pleasure! Feel free to ask me anything else."
  const HelpReply: string := "I'm here to help! You can ask me questions, have a conversation, or just chat about anything you'd like."
  const AboutReply: string := "I'm a simple ChatGPT-like chatbot demo. I can respond to basic questions and maintain our conversation history!"
  const WeatherReply: string := "I don't have access to real-time weather data, but you can check your local weather forecast online!"
  const HowOldAreYouReply: string := "I'm an AI, so I don't have an age in the traditional sense. I exist to help and chat with you!"
  const WhereAreYouFromReply: string := "I exist in the digital realm, running on servers to help users like you!"
  const GoodMorningReply: string := "Good morning! Hope you're having a great start to your day. How can I help?"
  const GoodAfternoonReply: string := "Good afternoon! What brings you here today?"
  const GoodEveningReply: string := "Good evening! How has your day been?"
  const GoodNightReply: string := "Good night! Sleep well and have sweet dreams!"
  const HowDoYouWorkReply: string := "I work by processing your text input and responding with pre-programmed responses. I'm a simple chatbot demo!"
  const AreYouRealReply: string := "I'm a computer program designed to chat with you. I'm not human, but I'm here to help!"
  const TellMeAJokeReply: string := "Why don't scientists trust atoms? Because they make up everything! \U{1F604}"
  const WhatsYourFavoriteColorReply: string := "I don't see colors, but if I could, I think I'd like blue - it seems calm and trustworthy!"
  const DoYouLikeMusicReply: string := "I can't hear music, but I understand it brings joy to many people! What's your favorite genre?"
  const TellMeAboutYourselfReply: string := "I'm a friendly chatbot created to demonstrate basic conversational AI. I love chatting with users like you!"

  /** Lines 33-39 of api/index.py: greetings and identity. */
  const ApiGreetings: Table :=
    [ ("hello", HelloReply),
      ("hi", HiReply),
      ("hey", HeyReply),
      ("how are you", HowAreYouReply),
      ("what is your name", WhatIsYourNameReply),
      ("who are you", WhoAreYouReply),
      ("what can you do", WhatCanYouDoReply)
    ]

  /** Lines 40-46 of api/index.py: farewells, thanks, help, weather. */
  const ApiCourtesy: Table :=
    [ ("bye", ByeReply),
      ("goodbye", GoodbyeReply),
      ("thanks", ThanksReply),
      ("thank you", ThankYouReply),
      ("help", HelpReply),
      ("about", AboutReply),
      ("weather", WeatherReply)
    ]

  const TimeReplyLead: string := "I don't have access to real-time data, but you sent this message at "
  const DateReplyLead: string := "Today's date when you sent this message: "

  /** Lines 47-48 of api/index.py: the two replies that embed the current time and date. */
  function ApiClock(clock: string, today: string): Table {
    [ ("time", TimeReplyLead + clock),
      ("date", DateReplyLead + today)
    ]
  }

  /** Lines 49-54 of api/index.py: age, origin, time-of-day greetings. */
  const ApiSmallTalk: Table :=
    [ ("how old are you", HowOldAreYouReply),
      ("where are you from", WhereAreYouFromReply),
      ("good morning", GoodMorningReply),
      ("good afternoon", GoodAfternoonReply),
      ("good evening", GoodEveningReply),
      ("good night", GoodNightReply)
    ]

  /** Lines 55-60 of api/index.py: the remaining questions about the bot. */
  const ApiPersonal: Table :=
    [ ("how do you work", HowDoYouWorkReply),
      ("are you real", AreYouRealReply),
      ("tell me a joke", TellMeAJokeReply),
      ("what's your favorite color", WhatsYourFavoriteColorReply),
      ("do you like music", DoYouLikeMusicReply),
      ("tell me about yourself", TellMeAboutYourselfReply)
    ]

  /** The serverless handler's table, in declaration order. */
  function ApiTable(clock: string, today: string): Table {
    ApiGreetings + ApiCourtesy + ApiClock(clock, today) + ApiSmallTalk + ApiPersonal
  }

  const ApiQuestion: Template :=
    Template("That's an interesting question about '",
             "'. I'm a simple demo chatbot, so I might not have all the answers, but I'm happy to chat about it!")
  const ApiLong: Template :=
    Template("Thanks for sharing that with me! You mentioned something about '",
             "...' - I'm a simple chatbot, but I find our conversation interesting. What else would you like to talk about?")
  const ApiDefault: Template :=
    Template("I understand you said: '",
             "'. I'm a simple chatbot demo, but I'm here to chat! Try asking me 'hello', 'how are you', 'what can you do', or tell me a joke!")

  /**
   `generate_bot_response` of api/index.py (lines 29-83), given the two clock
   readings: 28 triggers in declaration order, from "hello" to "tell me about
   yourself", with the time and date replies at positions 14 and 15.
   */
  function ApiPersona(clock: string, today: string): (p: Persona)
    ensures |p.table| == 28
    ensures p.table[0] == ("hello", HelloReply)
    ensures p.table[14] == ("time", TimeReplyLead + clock)
    ensures p.table[15] == ("date", DateReplyLead + today)
    ensures p.table[27] == ("tell me about yourself", TellMeAboutYourselfReply)
  {
    ApiGroupSizes(clock, today);
    ApiHelloEntry(clock, today);
    ApiClockEntries(clock, today);
    ApiAboutEntries(clock, today);
    Persona(ApiTable(clock, today), ApiQuestion, ApiLong, ApiDefault)
  }

  /** The five groups hold 7, 7, 2, 6 and 6 entries. */
  lemma ApiGroupSizes(clock: string, today: string)
    ensures |ApiGreetings| == 7 && |ApiCourtesy| == 7 && |ApiClock(clock, today)| == 2
    ensures |ApiSmallTalk| == 6 && |ApiPersonal| == 6
    ensures |ApiTable(clock, today)| == 28
  {
  }

  lemma ApiClockEntries(clock: string, today: string)
    ensures |ApiTable(clock, today)| == 28
    ensures ApiTable(clock, today)[14] == ("time", TimeReplyLead + clock)
    ensures ApiTable(clock, today)[15] == ("date", DateReplyLead + today)
  {
    ApiGroupSizes(clock, today);
    var t := ApiTable(clock, today);
    var k := ApiClock(clock, today);
    assert t == (ApiGreetings + ApiCourtesy) + k + (ApiSmallTalk + ApiPersonal);
    assert t[14] == k[0] && t[15] == k[1];
  }

  // The replies in which app.py's table differs from the serverless one.

  const AppWhatIsYourNameReply: string := "I'm ChatBot, your AI assistant."
  const AppThanksReply: string := "You're welcome! \U{F0}\U{178}\U{2DC}\U{160}"
  const AppHelpReply: string := "I'm here to chat with you. Ask me anything!"
  const AppAboutReply: string := "I'm a simple ChatGPT-like chatbot demo with persistent history via Supabase!"

  const AppTable: Table :=
    [ ("hello", HelloReply),
      ("hi", HiReply),
      ("hey", HeyReply),
      ("how are you", HowAreYouReply),
      ("what is your name", AppWhatIsYourNameReply),
      ("bye", ByeReply),
      ("thanks", AppThanksReply),
      ("help", AppHelpReply),
      ("about", AppAboutReply)
    ]

  const AppQuestion: Template := Template("That's an interesting question about '", "'. I'm just a demo, but happy to chat!")
  const AppLong: Template := Template("Thanks for sharing! You mentioned '", "...' \U{E2}\U{20AC}\U{201D} tell me more!")
  const AppDefault: Template := Template("I heard: '", "'. I'm a demo chatbot. Try 'hello', 'help', or 'tell me a joke'!")

  /** `generate_bot_response` of app.py (lines 49-76). */
  const AppPersona: Persona := Persona(AppTable, AppQuestion, AppLong, AppDefault)

  // ---------------------------------------------------------------------
  // Both tables are dictionaries (distinct triggers) with non-empty replies
  // ---------------------------------------------------------------------

  lemma GreetingsApart(clock: string, today: string)
    ensures DistinctKeys(ApiGreetings)
    ensures KeysDisjoint(ApiGreetings, ApiCourtesy)
    ensures KeysDisjoint(ApiGreetings, ApiClock(clock, today))
  {
  }

  lemma GreetingsApartLater()
    ensures KeysDisjoint(ApiGreetings, ApiSmallTalk)
    ensures KeysDisjoint(ApiGreetings, ApiPersonal)
  {
  }

  lemma CourtesyApart(clock: string, today: string)
    ensures DistinctKeys(ApiCourtesy)
    ensures KeysDisjoint(ApiCourtesy, ApiClock(clock, today))
    ensures KeysDisjoint(ApiCourtesy, ApiSmallTalk)
    ensures KeysDisjoint(ApiCourtesy, ApiPersonal)
  {
  }

  lemma ClockApart(clock: string, today: string)
    ensures DistinctKeys(ApiClock(clock, today))
    ensures KeysDisjoint(ApiClock(clock, today), ApiSmallTalk)
    ensures KeysDisjoint(ApiClock(clock, today), ApiPersonal)
  {
  }

  lemma SmallTalkApart()
    ensures DistinctKeys(ApiSmallTalk)
    ensures DistinctKeys(ApiPersonal)
    ensures KeysDisjoint(ApiSmallTalk, ApiPersonal)
  {
  }

  lemma ApiKeysDistinct(clock: string, today: string)
    ensures DistinctKeys(ApiTable(clock, today))
  {
    var k := ApiClock(clock, today);
    GreetingsApart(clock, today);
    GreetingsApartLater();
    CourtesyApart(clock, today);
    ClockApart(clock, today);
    SmallTalkApart();
    var t1 := ApiGreetings + ApiCourtesy;
    var t2 := t1 + k;
    var t3 := t2 + ApiSmallTalk;
    DistinctKeysAppend(ApiGreetings, ApiCourtesy);
    KeysDisjointAppend(ApiGreetings, ApiCourtesy, k);
    DistinctKeysAppend(t1, k);
    KeysDisjointAppend(ApiGreetings, ApiCourtesy, ApiSmallTalk);
    KeysDisjointAppend(t1, k, ApiSmallTalk);
    DistinctKeysAppend(t2, ApiSmallTalk);
    KeysDisjointAppend(ApiGreetings, ApiCourtesy, ApiPersonal);
    KeysDisjointAppend(t1, k, ApiPersonal);
    KeysDisjointAppend(t2, ApiSmallTalk, ApiPersonal);
    DistinctKeysAppend(t3, ApiPersonal);
  }

  lemma ApiRepliesNonblank(clock: string, today: string)
    ensures RepliesNonblank(ApiTable(clock, today))
  {
    var k := ApiClock(clock, today);
    var t1 := ApiGreetings + ApiCourtesy;
    var t2 := t1 + k;
    var t3 := t2 + ApiSmallTalk;
    RepliesNonblankAppend(ApiGreetings, ApiCourtesy);
    RepliesNonblankAppend(t1, k);
    RepliesNonblankAppend(t2, ApiSmallTalk);
    RepliesNonblankAppend(t3, ApiPersonal);
  }

  /** The serverless table has 28 distinct triggers and no empty reply. */
  lemma ApiPersonaWellFormed(clock: string, today: string)
    ensures DistinctKeys(ApiTable(clock, today))
    ensures Nonblank(ApiPersona(clock, today))
  {
    ApiKeysDistinct(clock, today);
    ApiRepliesNonblank(clock, today);
  }

  /** The app's table has 9 distinct triggers and no empty reply. */
  lemma AppPersonaWellFormed()
    ensures |AppTable| == 9
    ensures AppPersona.table[0] == ("hello", HelloReply)
    ensures AppPersona.table[8] == ("about", AppAboutReply)
    ensures DistinctKeys(AppTable)
    ensures Nonblank(AppPersona)
  {
  }

  // ---------------------------------------------------------------------
  // The decision list on particular messages
  // ---------------------------------------------------------------------

  /** The scans of the serverless table meet its five groups in order. */
  lemma ApiScanOrder(clock: string, today: string, text: string)
    ensures HasKey(ApiTable(clock, today), text) <==>
              || HasKey(ApiGreetings, text) || HasKey(ApiCourtesy, text)
              || HasKey(ApiClock(clock, today), text)
              || HasKey(ApiSmallTalk, text) || HasKey(ApiPersonal, text)
    ensures Triggered(ApiTable(clock, today), text) <==>
              || Triggered(ApiGreetings, text) || Triggered(ApiCourtesy, text)
              || Triggered(ApiClock(clock, today), text)
              || Triggered(ApiSmallTalk, text) || Triggered(ApiPersonal, text)
  {
    var k := ApiClock(clock, today);
    var t1 := ApiGreetings + ApiCourtesy;
    var t2 := t1 + k;
    var t3 := t2 + ApiSmallTalk;
    ExactScanAppend(ApiGreetings, ApiCourtesy, text);
    ExactScanAppend(t1, k, text);
    ExactScanAppend(t2, ApiSmallTalk, text);
    ExactScanAppend(t3, ApiPersonal, text);
    PartialScanAppend(ApiGreetings, ApiCourtesy, text);
    PartialScanAppend(t1, k, text);
    PartialScanAppend(t2, ApiSmallTalk, text);
    PartialScanAppend(t3, ApiPersonal, text);
  }

  /** A message whose lower-cased form is already trimmed normalises to it. */
  lemma NormalizeUnpadded(message: string, text: string)
    requires Lower(message) == text && Trimmed(text)
    ensures Normalize(message) == text
  {
    StripUnique([], text, []);
    assert [] + text + [] == text;
  }

  lemma PaddedHelloNormal()
    ensures Normalize("  Hello  ") == "hello"
  {
    assert Lower("  Hello  ") == "  hello  ";
    StripUnique("  ", "hello", "  ");
    assert "  " + "hello" + "  " == "  hello  ";
  }

  lemma ApiHelloEntry(clock: string, today: string)
    ensures ApiTable(clock, today)[0] == ("hello", HelloReply)
    ensures ApiTable(clock, today)[1] == ("hi", HiReply)
  {
  }

  /** Case and surrounding whitespace are ignored by the exact match. */
  lemma ApiPaddedHello(clock: string, today: string)
    ensures Respond(ApiPersona(clock, today), "  Hello  ") == HelloReply
  {
    PaddedHelloNormal();
    ApiHelloEntry(clock, today);
    ApiKeysDistinct(clock, today);
    ExactMatchReply(ApiPersona(clock, today), "  Hello  ", 0);
  }

  lemma AboutYourselfNormal()
    ensures Normalize("Tell me about yourself") == "tell me about yourself"
    ensures Contains("tell me about yourself", "about")
  {
    AboutYourselfLower();
    NormalizeUnpadded("Tell me about yourself", "tell me about yourself");
    assert OccursAt("about", "tell me about yourself", 8);
  }

  lemma AboutYourselfLower()
    ensures Lower("Tell me about yourself") == "tell me about yourself"
  {
  }

  lemma ApiAboutEntries(clock: string, today: string)
    ensures ApiTable(clock, today)[12].0 == "about"
    ensures ApiTable(clock, today)[27] == ("tell me about yourself", TellMeAboutYourselfReply)
  {
    assert ApiTable(clock, today)[12] == ApiCourtesy[5];
    assert ApiTable(clock, today)[27] == ApiPersonal[5];
  }

  /**
   "Tell me about yourself" gets the reply of its own trigger (line 60),
   although the earlier trigger "about" (line 45) occurs in it.
   */
  lemma ApiExactBeatsAbout(clock: string, today: string)
    ensures Contains(Normalize("Tell me about yourself"), ApiTable(clock, today)[12].0)
    ensures Respond(ApiPersona(clock, today), "Tell me about yourself")
            == TellMeAboutYourselfReply
  {
    AboutYourselfNormal();
    ApiAboutEntries(clock, today);
    ApiKeysDistinct(clock, today);
    ExactBeatsPartial(ApiPersona(clock, today), "Tell me about yourself", 27, 12);
  }

  lemma ThisScan(clock: string, today: string)
    ensures Normalize("this") == "this"
    ensures !HasKey(ApiGreetings, "this") && !HasKey(ApiCourtesy, "this")
    ensures !HasKey(ApiClock(clock, today), "this")
    ensures !HasKey(ApiSmallTalk, "this") && !HasKey(ApiPersonal, "this")
    ensures FirstTriggered(ApiGreetings, "this", 1)
  {
    assert Lower("this") == "this";
    NormalizeUnpadded("this", "this");
    assert OccursAt("hi", "this", 1);
  }

  /** The substring scan is raw: "this" contains "hi" and gets its reply. */
  lemma ApiThisHitsHi(clock: string, today: string)
    ensures Respond(ApiPersona(clock, today), "this") == HiReply
  {
    var text := "this";
    ThisScan(clock, today);
    ApiScanOrder(clock, today, text);
    var k := ApiClock(clock, today);
    var t1 := ApiGreetings + ApiCourtesy;
    var t2 := t1 + k;
    var t3 := t2 + ApiSmallTalk;
    PartialScanAppend(ApiGreetings, ApiCourtesy, text);
    PartialScanAppend(t1, k, text);
    PartialScanAppend(t2, ApiSmallTalk, text);
    PartialScanAppend(t3, ApiPersonal, text);
    ApiHelloEntry(clock, today);
  }

  /**
   Triggers that contain an earlier trigger are never reached by the
   substring scan: "goodbye" (line 41) contains "bye" (line 40) and
   "tell me about yourself" (line 60) contains "about" (line 45).
   */
  lemma ApiShadowedTriggers(clock: string, today: string, text: string)
    ensures !FirstTriggered(ApiTable(clock, today), text, 8)
    ensures !FirstTriggered(ApiTable(clock, today), text, 27)
  {
    var t := ApiTable(clock, today);
    assert t[7] == ApiCourtesy[0] && t[8] == ApiCourtesy[1];
    assert t[12] == ApiCourtesy[5] && t[27] == ApiPersonal[5];
    assert OccursAt("bye", "goodbye", 4);
    assert OccursAt("about", "tell me about yourself", 8);
    ShadowedTriggerNeverFirst(t, text, 7, 8);
    ShadowedTriggerNeverFirst(t, text, 12, 27);
  }
}
