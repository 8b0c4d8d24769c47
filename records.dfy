/** The App record: one entry of the directory, as stored in the browser. */
module Records {

  /** Every field is a string; `createdAt` holds an ISO-8601 timestamp. */
  datatype App = App(
    id: string,
    appName: string,
    company: string,
    website: string,
    domain: string,
    isFree: string,
    summary: string,
    logoUrl: string,
    audioUrl: string,
    videoUrl: string,
    createdAt: string)

  /** The record seen as a JavaScript object: property name to value, which is
      how the CSV export reads it (`a[h]`). */
  function AsObject(a: App): map<string, string> {
    map[
      "id" := a.id, "appName" := a.appName, "company" := a.company,
      "website" := a.website, "domain" := a.domain, "isFree" := a.isFree,
      "summary" := a.summary, "logoUrl" := a.logoUrl, "audioUrl" := a.audioUrl,
      "videoUrl" := a.videoUrl, "createdAt" := a.createdAt]
  }
}
