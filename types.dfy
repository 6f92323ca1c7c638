/** The records the application passes between its parts. The configuration
    covers every field the code reads, including the provider, model and
    per-provider keys that the declared `AppConfig` interface omits. An
    absent optional string is represented by "" throughout: the source only
    ever tests these fields for truthiness, where the two coincide. */
module Types {
  import opened Wrappers

  datatype Config = Config(
    provider: Option<string>,  // None when the field is absent
    model: string,
    apiKey: string,            // the legacy single key
    geminiApiKey: string,
    openAiApiKey: string,
    openRouterApiKey: string,
    appsScriptUrl: string,
    sheetName: string,
    userName: string,
    userEmail: string,
    userPhone: string,
    userLinkedIn: string,
    googleClientId: string,
    googleClientSecret: string)

  /** A generated cover letter kept in the history panel. */
  datatype HistoryItem = HistoryItem(id: string, timestamp: string, jobTitle: string, content: string)

  datatype Role = User | Assistant

  datatype ChatMessage = ChatMessage(id: string, role: Role, content: string, timestamp: int)

  /** The row sent to the spreadsheet logging endpoint. */
  datatype SheetPayload = SheetPayload(
    timestamp: string,
    jobDescription: string,
    coverLetter: string,
    extractedEmail: string,
    senderName: string,
    senderEmail: string,
    sheetName: string)
}
