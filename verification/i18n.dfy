/**
 The interface dictionary of src/lib/i18n.ts: two locales, one dictionary
 each, and `t`, which falls back to English for every locale name other
 than "hr". Both dictionaries are values of the same datatype, so they have
 the same sections and keys by construction.
 */
module I18n {

  datatype Locale = En | Hr

  /** The locale's name as the URL writes it. */
  function LocaleName(l: Locale): string {
    match l
    case En => "en"
    case Hr => "hr"
  }

  /** `getLocale(input)`: Croatian only for exactly "hr". */
  function GetLocale(input: string): (l: Locale)
    ensures l == Hr <==> input == "hr"
  {
    if input == "hr" then Hr else En
  }

  /** `getLocale` is idempotent, and reads back every locale's own name. */
  lemma GetLocaleIdempotent(input: string)
    ensures GetLocale(LocaleName(GetLocale(input))) == GetLocale(input)
    ensures forall l :: GetLocale(LocaleName(l)) == l
  {
  }

  datatype Nav = Nav(
    properties: string, messages: string, pricing: string,
    login: string, logout: string, dashboard: string)

  datatype CommonLabels = CommonLabels(
    back: string, edit: string, save: string, cancel: string, delete: string,
    newLabel: string, search: string, clear: string, copied: string,
    copyLink: string, printLabel: string)

  datatype PropertiesLabels = PropertiesLabels(
    title: string, subtitle: string, newProperty: string, yourList: string,
    total: string, created: string, noProperties: string, instructions: string,
    printInstructions: string, openInstructions: string)

  datatype InstructionsLabels = InstructionsLabels(
    title: string, subtitle: string, scanToChat: string, backupLink: string,
    editProperty: string, enLabel: string, hrLabel: string,
    stepsEn: seq<string>, stepsHr: seq<string>)

  datatype InboxLabels = InboxLabels(
    title: string, noMessages: string, placeholder: string, page: string,
    of: string, prev: string, next: string, replyWhatsapp: string,
    guest: string, bot: string, handoff: string, ai: string)

  datatype Dictionary = Dictionary(
    nav: Nav, common: CommonLabels, properties: PropertiesLabels,
    instructions: InstructionsLabels, inbox: InboxLabels)

  /** The printed guest steps; both dictionaries carry both languages. */
  const StepsEn: seq<string> := [
    "Scan the QR code (or open the link below).",
    "Tap \U{201C}Open WhatsApp\U{201D}.",
    "Ask any question \U{2014} you\U{2019}ll get an instant reply."]

  const StepsHr: seq<string> := [
    "Skeniraj QR kod (ili otvori link ispod).",
    "Klikni \U{201C}Otvori WhatsApp\U{201D}.",
    "Postavi pitanje \U{2014} dobit \U{0107}e\U{0161} brz odgovor."]

  const EnDict := Dictionary(
    Nav("Properties", "Messages", "Pricing", "Login", "Logout", "Dashboard"),
    CommonLabels("Back", "Edit", "Save", "Cancel", "Delete", "New", "Search", "Clear",
                 "Copied \U{2705}", "Copy link", "Print"),
    PropertiesLabels(
      "Properties", "Manage your properties and view guest messages.", "New property",
      "Your list", "total", "Created", "No properties yet. Create your first one.",
      "Guest instructions", "Print instructions", "Open instructions"),
    InstructionsLabels(
      "Guest instructions",
      "Print this and place it in the property (QR opens a simple guest page).",
      "Scan to chat", "Backup link (if QR doesn\U{2019}t work)", "Edit property",
      "EN", "HR", StepsEn, StepsHr),
    InboxLabels(
      "Inbox", "No messages yet.", "Search guest messages or bot replies\U{2026}",
      "Page", "of", "Prev", "Next", "Reply in WhatsApp", "Guest", "Bot", "Handoff", "AI"))

  const HrDict := Dictionary(
    Nav("Objekti", "Poruke", "Cijene", "Prijava", "Odjava", "Nadzorna plo\U{010D}a"),
    CommonLabels("Natrag", "Uredi", "Spremi", "Odustani", "Obri\U{0161}i", "Novo", "Tra\U{017E}i",
                 "O\U{010D}isti", "Kopirano \U{2705}", "Kopiraj link", "Ispis"),
    PropertiesLabels(
      "Objekti", "Upravljaj objektima i pregledaj poruke gostiju.", "Novi objekt",
      "Tvoj popis", "ukupno", "Kreirano", "Jo\U{0161} nema objekata. Kreiraj prvi.",
      "Upute za goste", "Ispi\U{0161}i upute", "Otvori upute"),
    InstructionsLabels(
      "Upute za goste",
      "Ispi\U{0161}i i ostavi u objektu (QR otvara jednostavnu stranicu za gosta).",
      "Skeniraj za chat", "Backup link (ako QR ne radi)", "Uredi objekt",
      "EN", "HR", StepsEn, StepsHr),
    InboxLabels(
      "Inbox", "Jo\U{0161} nema poruka.", "Tra\U{017E}i po porukama gosta ili odgovoru bota\U{2026}",
      "Stranica", "od", "Preth", "Sljed", "Odgovori u WhatsAppu", "Gost", "Bot", "Preuzimanje", "AI"))

  function Dict(l: Locale): Dictionary {
    match l
    case En => EnDict
    case Hr => HrDict
  }

  /** `t(locale)`: total, Croatian exactly for "hr", English otherwise. */
  function T(locale: string): (d: Dictionary)
    ensures d == Dict(GetLocale(locale))
    ensures d == HrDict <==> locale == "hr"
    ensures d == EnDict <==> locale != "hr"
  {
    assert EnDict.nav.pricing[0] != HrDict.nav.pricing[0];
    Dict(GetLocale(locale))
  }

  /** Every locale name other than "hr" reads the English dictionary. */
  lemma FallbackToEnglish(x: string, y: string)
    requires x != "hr" && y != "hr"
    ensures T(x) == T(y) == T("en")
  {
  }

  /** The guest steps are the same in both dictionaries; the labels of the
      two locales too. */
  lemma SharedInstructionContent(x: string, y: string)
    ensures T(x).instructions.stepsEn == T(y).instructions.stepsEn == StepsEn
    ensures T(x).instructions.stepsHr == T(y).instructions.stepsHr == StepsHr
    ensures T(x).instructions.enLabel == "EN" && T(x).instructions.hrLabel == "HR"
    ensures |StepsEn| == |StepsHr| == 3
  {
  }
}
