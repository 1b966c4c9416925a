/** The stages the `ProgressTracker` component of
    `src/components/ui/ProgressTracker.tsx` displays; the converter pages move
    through them. */
module ProgressTracker {
  datatype Stage = Idle | Uploading | Processing | Downloading | Completed | Failed
}
