/** The records the file manager passes around (`src/types/file.ts`). */
module FileTypes {

  /** One stored object as the client knows it. */
  datatype FileItem = FileItem(
    id: string,
    name: string,
    size: int,
    mimeType: string,
    createdAt: string,
    updatedAt: string,
    path: string)

  datatype UploadStatus = Uploading | Completed | Failed

  /** The progress row shown for one file of an upload batch. */
  datatype UploadProgress = UploadProgress(fileName: string, progress: int, status: UploadStatus)

  datatype ViewMode = Grid | List
}
