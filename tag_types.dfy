/**
 * The values the tag panel exchanges with its collaborators: tags as the tag
 * service returns them, the confirmation dialog's message and acknowledgement,
 * the click event, the calls the panel issues and the events it reports.
 */
module TagTypes {
  import opened Wrappers

  /** A scan status: the two "in flight" values, or any status that is neither. */
  datatype ScanStatus = Pending | Running | OtherStatus

  datatype ScanOverview = ScanOverview(scanStatus: ScanStatus)

  /** One image tag. `signed` stands for a truthy `signature`. */
  datatype Tag = Tag(
    name: string,
    digest: Option<string>,
    signed: bool,
    scanOverview: Option<ScanOverview>)

  datatype TagClickEvent = TagClickEvent(projectId: int, repositoryName: string, tagName: string)

  /** Which panel a confirmation dialog belongs to; only `TagTarget` is this panel's. */
  datatype ConfirmationTarget = TagTarget | OtherTarget(kind: string)

  datatype ConfirmationState = Confirmed | OtherState(kind: string)

  /** The two button sets this panel puts on a dialog. */
  datatype ConfirmationButtons = Close | DeleteCancel

  datatype ConfirmationMessage = ConfirmationMessage(
    titleKey: string,
    summaryKey: string,
    content: string,
    data: Tag,
    target: ConfirmationTarget,
    buttons: ConfirmationButtons)

  /** What the dialog hands back; `data` is the payload of the message, if any. */
  datatype ConfirmationAcknowledgement = ConfirmationAcknowledgement(
    state: ConfirmationState,
    data: Option<Tag>,
    source: ConfirmationTarget)

  /** A call the panel issues to a backing service. */
  datatype Request =
    | GetTagsCall(repoName: string)
    | DeleteTagCall(repoName: string, tagName: string)
    | StartScanCall(repoName: string, tagId: string)

  /** Something the panel reports: to its container, the error handler or the dialog. */
  datatype Event =
    | RefreshRepo(flag: bool)
    | TagClicked(click: TagClickEvent)
    | ErrorReported(error: string)
    | InfoShown(key: string)
    | DialogOpened(message: ConfirmationMessage)
}
